/** `DisplaySleep`: the displays the program has talked to, each of which
    gets its communication delay when the collection is dropped. */
module Teardown {
  import opened Library

  /** One delay per display, in the order the displays were added. */
  function Sleeps(ds: seq<Display>): (es: seq<Event>)
    ensures |es| == |ds|
    ensures forall i :: 0 <= i < |ds| ==> es[i] == Event.Sleep(ds[i].handle)
  {
    if ds == [] then [] else [Event.Sleep(ds[0].handle)] + Sleeps(ds[1..])
  }

  /** How often `e` occurs in `es`. */
  function Occurrences(e: Event, es: seq<Event>): nat {
    if es == [] then 0 else (if es[0] == e then 1 else 0) + Occurrences(e, es[1..])
  }

  lemma {:induction false} OccurrencesAppend(e: Event, a: seq<Event>, b: seq<Event>)
    ensures Occurrences(e, a + b) == Occurrences(e, a) + Occurrences(e, b)
    decreases |a|
  {
    if a == [] {
      assert a + b == b;
    } else {
      assert (a + b)[1..] == a[1..] + b;
      OccurrencesAppend(e, a[1..], b);
    }
  }

  /** When the added handles are distinct, each added display receives
      exactly one delay and any other handle none. */
  lemma {:induction false} SleepsOnce(ds: seq<Display>, handle: nat)
    requires Distinct(Handles(ds))
    ensures Occurrences(Event.Sleep(handle), Sleeps(ds)) == if handle in Handles(ds) then 1 else 0
    decreases |ds|
  {
    if ds != [] {
      assert Sleeps(ds) == [Event.Sleep(ds[0].handle)] + Sleeps(ds[1..]);
      assert Handles(ds) == [ds[0].handle] + Handles(ds[1..]);
      assert Distinct(Handles(ds[1..])) by {
        forall i, j | 0 <= i < j < |ds[1..]| ensures Handles(ds[1..])[i] != Handles(ds[1..])[j] {
          assert Handles(ds)[i + 1] != Handles(ds)[j + 1];
        }
      }
      SleepsOnce(ds[1..], handle);
      if handle == ds[0].handle {
        assert handle !in Handles(ds[1..]) by {
          forall j | 0 <= j < |ds[1..]| ensures Handles(ds[1..])[j] != handle {
            assert Handles(ds)[0] != Handles(ds)[j + 1];
          }
        }
      }
    }
  }

  class DisplaySleep {
    var added: seq<Display>

    /** `DisplaySleep::default()`: nothing added yet. */
    constructor ()
      ensures added == []
    {
      added := [];
    }

    /** `add`: keep `d` for the final delay. */
    method Add(d: Display)
      modifies this
      ensures added == old(added) + [d]
    {
      added := added + [d];
    }

    /** `drop`: give every added display its delay, in insertion order. */
    method Drop(host: Host)
      modifies host
      ensures host.log == old(host.log) + Sleeps(added)
    {
      for i := 0 to |added|
        invariant host.log == old(host.log) + Sleeps(added[..i])
      {
        assert Sleeps(added[..i + 1]) == Sleeps(added[..i]) + [Event.Sleep(added[i].handle)];
        host.Sleep(added[i].handle);
      }
      assert added[..|added|] == added;
    }
  }
}
