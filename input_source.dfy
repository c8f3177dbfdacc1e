/** The values of the Input Select feature (VCP code 60h) of the VESA Monitor
    Control Command Set, with their one-byte codes, their names and the
    conversions the program derives for them. */
module InputSources {
  import opened Common

  datatype InputSource =
    | Vga1 | Vga2 | Dvi1 | Dvi2
    | CompositeVideo1 | CompositeVideo2 | SVideo1 | SVideo2
    | Tuner1 | Tuner2 | Tuner3
    | ComponentVideo1 | ComponentVideo2 | ComponentVideo3
    | DisplayPort1 | DisplayPort2 | Hdmi1 | Hdmi2

  /** The value the monitor uses for the source (the enum's `repr(u8)` discriminant). */
  function Code(s: InputSource): (c: u8)
    ensures 0x01 <= c <= 0x12
  {
    match s
    case Vga1 => 0x01
    case Vga2 => 0x02
    case Dvi1 => 0x03
    case Dvi2 => 0x04
    case CompositeVideo1 => 0x05
    case CompositeVideo2 => 0x06
    case SVideo1 => 0x07
    case SVideo2 => 0x08
    case Tuner1 => 0x09
    case Tuner2 => 0x0a
    case Tuner3 => 0x0b
    case ComponentVideo1 => 0x0c
    case ComponentVideo2 => 0x0d
    case ComponentVideo3 => 0x0e
    case DisplayPort1 => 0x0f
    case DisplayPort2 => 0x10
    case Hdmi1 => 0x11
    case Hdmi2 => 0x12
  }

  /** `input_source as u16`: the code widened to a feature value. */
  function Value(s: InputSource): (v: u16)
    ensures 0x01 <= v <= 0x12
  {
    Code(s) as int as u16
  }

  /** Decoding a feature value read from a monitor (`TryFrom<u16>`). */
  function FromCode(v: u16): (r: Option<InputSource>)
    ensures r.Some? <==> 0x01 <= v <= 0x12
    ensures r.Some? ==> Value(r.value) == v
  {
    match v
    case 0x01 => Some(Vga1)
    case 0x02 => Some(Vga2)
    case 0x03 => Some(Dvi1)
    case 0x04 => Some(Dvi2)
    case 0x05 => Some(CompositeVideo1)
    case 0x06 => Some(CompositeVideo2)
    case 0x07 => Some(SVideo1)
    case 0x08 => Some(SVideo2)
    case 0x09 => Some(Tuner1)
    case 0x0a => Some(Tuner2)
    case 0x0b => Some(Tuner3)
    case 0x0c => Some(ComponentVideo1)
    case 0x0d => Some(ComponentVideo2)
    case 0x0e => Some(ComponentVideo3)
    case 0x0f => Some(DisplayPort1)
    case 0x10 => Some(DisplayPort2)
    case 0x11 => Some(Hdmi1)
    case 0x12 => Some(Hdmi2)
    case _ => None
  }

  /** The printed form of a source: its variant name (`Display`). */
  function Name(s: InputSource): (n: string)
    ensures |n| >= 4 && n[|n| - 1] in "123"
  {
    match s
    case Vga1 => "Vga1"
    case Vga2 => "Vga2"
    case Dvi1 => "Dvi1"
    case Dvi2 => "Dvi2"
    case CompositeVideo1 => "CompositeVideo1"
    case CompositeVideo2 => "CompositeVideo2"
    case SVideo1 => "SVideo1"
    case SVideo2 => "SVideo2"
    case Tuner1 => "Tuner1"
    case Tuner2 => "Tuner2"
    case Tuner3 => "Tuner3"
    case ComponentVideo1 => "ComponentVideo1"
    case ComponentVideo2 => "ComponentVideo2"
    case ComponentVideo3 => "ComponentVideo3"
    case DisplayPort1 => "DisplayPort1"
    case DisplayPort2 => "DisplayPort2"
    case Hdmi1 => "Hdmi1"
    case Hdmi2 => "Hdmi2"
  }

  /** Parsing a source from its exact, case-sensitive variant name (`FromStr`). */
  function FromName(n: string): (r: Option<InputSource>)
    ensures r.Some? ==> Name(r.value) == n
  {
    if n == "Vga1" then Some(Vga1)
    else if n == "Vga2" then Some(Vga2)
    else if n == "Dvi1" then Some(Dvi1)
    else if n == "Dvi2" then Some(Dvi2)
    else if n == "CompositeVideo1" then Some(CompositeVideo1)
    else if n == "CompositeVideo2" then Some(CompositeVideo2)
    else if n == "SVideo1" then Some(SVideo1)
    else if n == "SVideo2" then Some(SVideo2)
    else if n == "Tuner1" then Some(Tuner1)
    else if n == "Tuner2" then Some(Tuner2)
    else if n == "Tuner3" then Some(Tuner3)
    else if n == "ComponentVideo1" then Some(ComponentVideo1)
    else if n == "ComponentVideo2" then Some(ComponentVideo2)
    else if n == "ComponentVideo3" then Some(ComponentVideo3)
    else if n == "DisplayPort1" then Some(DisplayPort1)
    else if n == "DisplayPort2" then Some(DisplayPort2)
    else if n == "Hdmi1" then Some(Hdmi1)
    else if n == "Hdmi2" then Some(Hdmi2)
    else None
  }

  /** Every source, in declaration order. */
  function AllSources(): seq<InputSource> {
    [ Vga1, Vga2, Dvi1, Dvi2, CompositeVideo1, CompositeVideo2, SVideo1, SVideo2,
      Tuner1, Tuner2, Tuner3, ComponentVideo1, ComponentVideo2, ComponentVideo3,
      DisplayPort1, DisplayPort2, Hdmi1, Hdmi2 ]
  }

  /** The names offered on the command line (`iter_variant_names`). */
  function VariantNames(): (names: seq<string>)
    ensures |names| == |AllSources()|
    ensures forall i :: 0 <= i < |names| ==> names[i] == Name(AllSources()[i])
  {
    seq(|AllSources()|, i requires 0 <= i < |AllSources()| => Name(AllSources()[i]))
  }

  /** Decoding the code of a source gives that source back. */
  lemma {:induction false} FromCodeValue(s: InputSource)
    ensures FromCode(Value(s)) == Some(s)
  {
    match s
    case Vga1 => case Vga2 => case Dvi1 => case Dvi2 =>
    case CompositeVideo1 => case CompositeVideo2 => case SVideo1 => case SVideo2 =>
    case Tuner1 => case Tuner2 => case Tuner3 =>
    case ComponentVideo1 => case ComponentVideo2 => case ComponentVideo3 =>
    case DisplayPort1 => case DisplayPort2 => case Hdmi1 => case Hdmi2 =>
  }

  /** No two sources share a code. */
  lemma {:induction false} CodeInjective(s: InputSource, t: InputSource)
    ensures Code(s) == Code(t) <==> s == t
  {
    FromCodeValue(s);
    FromCodeValue(t);
  }

  /** Printing a source and parsing the text back gives the source. */
  lemma {:induction false} FromNameName(s: InputSource)
    ensures FromName(Name(s)) == Some(s)
  {
    match s
    case Vga1 => case Vga2 => case Dvi1 => case Dvi2 =>
    case CompositeVideo1 => case CompositeVideo2 => case SVideo1 => case SVideo2 =>
    case Tuner1 => case Tuner2 => case Tuner3 =>
    case ComponentVideo1 => case ComponentVideo2 => case ComponentVideo3 =>
    case DisplayPort1 => case DisplayPort2 => case Hdmi1 => case Hdmi2 =>
  }

  /** The table lists every source, at the index one below its code. */
  lemma {:induction false} AllSourcesComplete(s: InputSource)
    ensures |AllSources()| == 18
    ensures AllSources()[Code(s) - 1] == s
  {
    match s
    case Vga1 => case Vga2 => case Dvi1 => case Dvi2 =>
    case CompositeVideo1 => case CompositeVideo2 => case SVideo1 => case SVideo2 =>
    case Tuner1 => case Tuner2 => case Tuner3 =>
    case ComponentVideo1 => case ComponentVideo2 => case ComponentVideo3 =>
    case DisplayPort1 => case DisplayPort2 => case Hdmi1 => case Hdmi2 =>
  }

  /** The table lists no source twice. */
  lemma {:induction false} AllSourcesDistinct()
    ensures forall i, j :: 0 <= i < j < |AllSources()| ==> AllSources()[i] != AllSources()[j]
  {
    forall i, j | 0 <= i < j < |AllSources()|
      ensures AllSources()[i] != AllSources()[j]
    {
      CodeInjective(AllSources()[i], AllSources()[j]);
    }
  }

  /** The offered names are 18 distinct names, the name of each source at
      the index one below its code. */
  lemma {:induction false} VariantNamesIndexed(s: InputSource)
    ensures |VariantNames()| == 18
    ensures VariantNames()[Code(s) - 1] == Name(s)
    ensures forall i, j :: 0 <= i < j < |VariantNames()| ==> VariantNames()[i] != VariantNames()[j]
  {
    AllSourcesComplete(s);
    AllSourcesDistinct();
    forall i, j | 0 <= i < j < |VariantNames()|
      ensures VariantNames()[i] != VariantNames()[j]
    {
      FromNameName(AllSources()[i]);
      FromNameName(AllSources()[j]);
    }
  }

  /** A name parses exactly when it is one of the offered names. */
  lemma {:induction false} FromNameOffered(n: string)
    ensures FromName(n).Some? <==> n in VariantNames()
  {
    if FromName(n).Some? {
      var s := FromName(n).value;
      AllSourcesComplete(s);
      assert VariantNames()[Code(s) - 1] == Name(s) == n;
    }
    if n in VariantNames() {
      var i :| 0 <= i < |VariantNames()| && VariantNames()[i] == n;
      FromNameName(AllSources()[i]);
    }
  }
}
