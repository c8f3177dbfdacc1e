/** The display-control library the program drives, as the model sees it:
    the display records it hands out, its `Query` filter tree, and every call
    the program makes into it. The library is not modelled: each reply is
    chosen by an `Oracle`, tables of replies keyed by the history of calls
    made so far, so a proof about the program holds whatever the library and
    the monitors answer. */
module Library {
  import opened Common

  /** The backend drivers the library knows. */
  datatype Backend = I2cDevice | WinApi | Nvapi | MacOS

  /** An entry of a display's MCCS feature database. */
  datatype Descriptor = Descriptor(code: u8)

  /** The static information the library keeps about one display. */
  datatype DisplayInfo = DisplayInfo(
    backend: Backend,
    id: string,
    manufacturerId: Option<string>,
    modelName: Option<string>,
    serialNumber: Option<string>,
    mccsDatabase: map<u8, Descriptor>)

  /** One display: `handle` names the connection, `info` is what is known of it. */
  datatype Display = Display(handle: nat, info: DisplayInfo)

  /** A leaf of a query: one condition on one field of a display's information. */
  datatype Filter =
    | BackendIs(backend: Backend)
    | IdIs(id: string)
    | ManufacturerIdIs(manufacturer: string)
    | ModelNameIs(model: string)
    | SerialNumberIs(serial: string)

  /** The library's query tree. */
  datatype Query = Any | And(parts: seq<Query>) | Or(parts: seq<Query>) | Where(filter: Filter)

  /** What the program asks of the library, and what it logs, in order. */
  datatype Event =
    | Refresh(handle: nat)                        // update_capabilities
    | GetVcp(handle: nat, code: u8)               // get_vcp_feature
    | SetVcp(handle: nat, code: u8, value: u16)   // set_vcp_feature
    | Sleep(handle: nat)                          // the handle's communication delay
    | Warned(handle: nat)                         // a warning was logged about a display

  type Trace = seq<Event>

  /** The replies of the library, as tables keyed by the calls made before
      and the call's arguments, so a repeated call may be answered
      differently; a call the tables do not list fails with a device error.
      `satisfies` is how the library judges one leaf of a query against
      display information. */
  datatype Oracle = Oracle(
    refresh: map<(Trace, nat), Result<DisplayInfo>>,
    getVcp: map<(Trace, nat, u8), Result<u16>>,
    setVcp: map<(Trace, nat, u8, u16), Result<()>>,
    satisfies: (Filter, DisplayInfo) -> bool)

  /** The library's answer to `update_capabilities` on `h` after the calls `t`. */
  function RefreshReply(o: Oracle, t: Trace, h: nat): Result<DisplayInfo> {
    if (t, h) in o.refresh then o.refresh[(t, h)] else Err(Device(0))
  }

  /** The library's answer to `get_vcp_feature`. */
  function GetVcpReply(o: Oracle, t: Trace, h: nat, c: u8): Result<u16> {
    if (t, h, c) in o.getVcp then o.getVcp[(t, h, c)] else Err(Device(0))
  }

  /** The library's answer to `set_vcp_feature`. */
  function SetVcpReply(o: Oracle, t: Trace, h: nat, c: u8, v: u16): Result<()> {
    if (t, h, c, v) in o.setVcp then o.setVcp[(t, h, c, v)] else Err(Device(0))
  }

  /** `Query::matches`: `Any` matches everything, `And` needs every part,
      `Or` needs some part, and a leaf is judged by the library. */
  function Matches(q: Query, info: DisplayInfo, satisfies: (Filter, DisplayInfo) -> bool): bool
    decreases q
  {
    match q
    case Any => true
    case And(parts) => forall i | 0 <= i < |parts| :: Matches(parts[i], info, satisfies)
    case Or(parts) => exists i | 0 <= i < |parts| :: Matches(parts[i], info, satisfies)
    case Where(f) => satisfies(f, info)
  }

  /** A call into the library: the log it leaves and the reply it got. */
  datatype Step<T> = Step(trace: Trace, result: Result<T>)

  /** The (refreshed) information of a display, or the library's error. */
  function RefreshStep(o: Oracle, t: Trace, handle: nat): (s: Step<DisplayInfo>)
    ensures s.trace == t + [Refresh(handle)]
  {
    Step(t + [Refresh(handle)], RefreshReply(o, t, handle))
  }

  function GetVcpStep(o: Oracle, t: Trace, handle: nat, code: u8): (s: Step<u16>)
    ensures s.trace == t + [GetVcp(handle, code)]
  {
    Step(t + [GetVcp(handle, code)], GetVcpReply(o, t, handle, code))
  }

  function SetVcpStep(o: Oracle, t: Trace, handle: nat, code: u8, value: u16): (s: Step<()>)
    ensures s.trace == t + [SetVcp(handle, code, value)]
  {
    Step(t + [SetVcp(handle, code, value)], SetVcpReply(o, t, handle, code, value))
  }

  /** Splitting the calls made after `t` at an intermediate log `a`. */
  lemma {:induction false} SliceConcat(t: Trace, a: Trace, b: Trace)
    requires t <= a <= b
    ensures b[|t|..] == a[|t|..] + b[|a|..]
  {
  }

  /** The handles of a list of displays, in order. */
  function Handles(ds: seq<Display>): (hs: seq<nat>)
    ensures |hs| == |ds|
    ensures forall i :: 0 <= i < |ds| ==> hs[i] == ds[i].handle
  {
    if ds == [] then [] else [ds[0].handle] + Handles(ds[1..])
  }

  predicate Distinct(hs: seq<nat>) {
    forall i, j :: 0 <= i < j < |hs| ==> hs[i] != hs[j]
  }

  /** The program's connection to the outside world: the library's replies,
      the displays it enumerates, and the log of every call made so far. */
  class Host {
    const oracle: Oracle
    const attached: seq<Display>   // what `Display::enumerate` returns
    var log: Trace

    constructor (oracle: Oracle, attached: seq<Display>)
      ensures this.oracle == oracle && this.attached == attached && log == []
    {
      this.oracle := oracle;
      this.attached := attached;
      log := [];
    }

    /** `Display::update_capabilities`: the refreshed information, or an error. */
    method UpdateCapabilities(handle: nat) returns (r: Result<DisplayInfo>)
      modifies this
      ensures Step(log, r) == RefreshStep(oracle, old(log), handle)
    {
      r := RefreshReply(oracle, log, handle);
      log := log + [Refresh(handle)];
    }

    method GetVcpFeature(handle: nat, code: u8) returns (r: Result<u16>)
      modifies this
      ensures Step(log, r) == GetVcpStep(oracle, old(log), handle, code)
    {
      r := GetVcpReply(oracle, log, handle, code);
      log := log + [GetVcp(handle, code)];
    }

    method SetVcpFeature(handle: nat, code: u8, value: u16) returns (r: Result<()>)
      modifies this
      ensures Step(log, r) == SetVcpStep(oracle, old(log), handle, code, value)
    {
      r := SetVcpReply(oracle, log, handle, code, value);
      log := log + [SetVcp(handle, code, value)];
    }

    /** The handle's post-communication delay. */
    method Sleep(handle: nat)
      modifies this
      ensures log == old(log) + [Event.Sleep(handle)]
    {
      log := log + [Event.Sleep(handle)];
    }

    /** A warning logged about a display. */
    method Warn(handle: nat)
      modifies this
      ensures log == old(log) + [Warned(handle)]
    {
      log := log + [Warned(handle)];
    }
  }
}
