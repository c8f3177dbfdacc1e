/** Reading and writing a display's Input Select feature. */
module InputFeature {
  import opened Common
  import opened Library
  import opened InputSources

  /** The MCCS code of the Input Select feature. */
  const INPUT_SELECT: u8 := 0x60

  /** `set_input_source`: write the source's code to the feature's code as
      listed in the display's feature database; without that entry, fail
      with no call to the library. */
  function SetInputSourceStep(o: Oracle, t: Trace, d: Display, src: InputSource): (s: Step<()>)
    ensures t <= s.trace && |s.trace| <= |t| + 1
    ensures s.result.Ok? ==> INPUT_SELECT in d.info.mccsDatabase
  {
    if INPUT_SELECT in d.info.mccsDatabase then
      SetVcpStep(o, t, d.handle, d.info.mccsDatabase[INPUT_SELECT].code, Value(src))
    else
      Step(t, Err(FeatureUnavailable))
  }

  /** `get_input_source`: read the feature and decode its value; a value
      that names no source is an error, as is a missing database entry. */
  function GetInputSourceStep(o: Oracle, t: Trace, d: Display): (s: Step<InputSource>)
    ensures t <= s.trace && |s.trace| <= |t| + 1
    ensures s.result.Ok? ==> INPUT_SELECT in d.info.mccsDatabase && |s.trace| == |t| + 1
  {
    if INPUT_SELECT in d.info.mccsDatabase then
      var s := GetVcpStep(o, t, d.handle, d.info.mccsDatabase[INPUT_SELECT].code);
      match s.result
      case Err(e) => Step(s.trace, Err(e))
      case Ok(v) =>
        match FromCode(v)
        case Some(src) => Step(s.trace, Ok(src))
        case None => Step(s.trace, Err(InvalidInputCode(v)))
    else
      Step(t, Err(FeatureUnavailable))
  }

  /** A display whose database lacks the feature gets the "could not access
      input source feature" error from both operations, and no VCP call. */
  lemma {:induction false} WithoutInputFeature(o: Oracle, t: Trace, d: Display, src: InputSource)
    requires INPUT_SELECT !in d.info.mccsDatabase
    ensures SetInputSourceStep(o, t, d, src) == Step(t, Err(FeatureUnavailable))
    ensures GetInputSourceStep(o, t, d) == Step(t, Err(FeatureUnavailable))
  {
  }

  /** With the feature present, `set_input_source` makes exactly one call,
      a write of the source's code to the feature code from the database,
      and returns what the library answered. */
  lemma {:induction false} SetInputSourceWrites(o: Oracle, t: Trace, d: Display, src: InputSource)
    requires INPUT_SELECT in d.info.mccsDatabase
    ensures var s := SetInputSourceStep(o, t, d, src);
      var code := d.info.mccsDatabase[INPUT_SELECT].code;
      s.trace == t + [SetVcp(d.handle, code, Value(src))] &&
      s.result == SetVcpReply(o, t, d.handle, code, Value(src)) &&
      FromCode(s.trace[|t|].value) == Some(src)
  {
    FromCodeValue(src);
  }

  /** `get_input_source` succeeds with `src` exactly when the feature is
      present and the display reported `src`'s code; a reported value outside
      0x01..0x12 is the invalid-code error. */
  lemma {:induction false} GetInputSourceDecodes(o: Oracle, t: Trace, d: Display, src: InputSource)
    ensures var g := GetInputSourceStep(o, t, d);
      g.result == Ok(src) <==>
        INPUT_SELECT in d.info.mccsDatabase &&
        GetVcpReply(o, t, d.handle, d.info.mccsDatabase[INPUT_SELECT].code) == Ok(Value(src))
    ensures INPUT_SELECT in d.info.mccsDatabase ==>
      var reply := GetVcpReply(o, t, d.handle, d.info.mccsDatabase[INPUT_SELECT].code);
      reply.Ok? && !(0x01 <= reply.value <= 0x12) ==>
        GetInputSourceStep(o, t, d).result == Err(InvalidInputCode(reply.value))
  {
    FromCodeValue(src);
  }

  /** `set_input_source`, calling into the library. */
  method SetInputSource(host: Host, d: Display, src: InputSource) returns (r: Result<()>)
    modifies host
    ensures Step(host.log, r) == SetInputSourceStep(host.oracle, old(host.log), d, src)
  {
    if INPUT_SELECT in d.info.mccsDatabase {
      r := host.SetVcpFeature(d.handle, d.info.mccsDatabase[INPUT_SELECT].code, Value(src));
    } else {
      r := Err(FeatureUnavailable);
    }
  }

  /** `get_input_source`, calling into the library. */
  method GetInputSource(host: Host, d: Display) returns (r: Result<InputSource>)
    modifies host
    ensures Step(host.log, r) == GetInputSourceStep(host.oracle, old(host.log), d)
  {
    if INPUT_SELECT in d.info.mccsDatabase {
      var value := host.GetVcpFeature(d.handle, d.info.mccsDatabase[INPUT_SELECT].code);
      match value
      case Err(e) => r := Err(e);
      case Ok(v) =>
        match FromCode(v)
        case Some(src) => r := Ok(src);
        case None => r := Err(InvalidInputCode(v));
    } else {
      r := Err(FeatureUnavailable);
    }
  }
}
