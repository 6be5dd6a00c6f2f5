/** design-patterns/monostate.py: every instance's attribute dict is the one
    class-level `_shared_state` dict, so all instances share their state
    while remaining distinct objects. */
module Monostate {
  import opened Optional

  /** The `_shared_state` dict: attribute name to value. */
  class SharedState {
    var attrs: map<string, string>

    constructor()
      ensures attrs == map[]
    {
      attrs := map[];
    }
  }

  /** An instance; its `__dict__` is the shared dict. */
  class Monostate {
    const dict: SharedState

    /** `Monostate()`: binds the instance's attributes to the shared dict and
        changes nothing in it. */
    constructor(shared: SharedState)
      ensures dict == shared
    {
      dict := shared;
    }

    /** `Settings()`: after binding to the shared dict, sets theme to "Light"
        in it, for every instance; no other attribute changes. */
    constructor Settings(shared: SharedState)
      modifies shared
      ensures dict == shared
      ensures shared.attrs == old(shared.attrs)["theme" := "Light"]
    {
      dict := shared;
      new;
      shared.attrs := shared.attrs["theme" := "Light"];
    }

    /** Reading an attribute: `None` stands for the AttributeError of an
        attribute never set. */
    function Get(attr: string): (v: Option<string>)
      reads dict
      ensures v.Some? <==> attr in dict.attrs
      ensures v.Some? ==> v.value == dict.attrs[attr]
    {
      if attr in dict.attrs then Some(dict.attrs[attr]) else None
    }

    /** `self.attr = value`: a write into the shared dict. */
    method Set(attr: string, value: string)
      modifies dict
      ensures dict.attrs == old(dict.attrs)[attr := value]
    {
      dict.attrs := dict.attrs[attr := value];
    }
  }

  /** A write through one instance is read through every other instance of
      the same shared dict. */
  method WriteIsShared(x: Monostate, y: Monostate, attr: string, value: string) returns (seen: Option<string>)
    requires x.dict == y.dict
    modifies y.dict
    ensures seen == Some(value)
  {
    y.Set(attr, value);
    seen := x.Get(attr);
  }

  /** The value an attribute reads as after a sequence of writes (attribute,
      value), whichever instances made them: that of the last write to it, or
      what it read as before when none wrote it. */
  function LastWrite(writes: seq<(string, string)>, attr: string, before: Option<string>): Option<string>
    decreases |writes|
  {
    if writes == [] then before
    else
      var n := |writes| - 1;
      if writes[n].0 == attr then Some(writes[n].1) else LastWrite(writes[..n], attr, before)
  }

  /** The latest write to attr decides its value ... */
  lemma {:induction false} LastWriteWins(writes: seq<(string, string)>, attr: string, before: Option<string>, j: nat)
    requires j < |writes| && writes[j].0 == attr
    requires forall k :: j < k < |writes| ==> writes[k].0 != attr
    ensures LastWrite(writes, attr, before) == Some(writes[j].1)
    decreases |writes|
  {
    var n := |writes| - 1;
    if j < n {
      LastWriteWins(writes[..n], attr, before, j);
    }
  }

  /** ... and writes to other attributes leave it as it was. */
  lemma {:induction false} LastWriteUntouched(writes: seq<(string, string)>, attr: string, before: Option<string>)
    requires forall k :: 0 <= k < |writes| ==> writes[k].0 != attr
    ensures LastWrite(writes, attr, before) == before
    decreases |writes|
  {
    if writes != [] {
      LastWriteUntouched(writes[..|writes| - 1], attr, before);
    }
  }

  /** Writes made through any instances of one shared dict, one after the
      other: every attribute then reads, through the reader, as its last
      write. */
  method ReplayWrites(writers: seq<Monostate>, writes: seq<(string, string)>, reader: Monostate, attr: string)
      returns (seen: Option<string>)
    requires |writers| == |writes|
    requires forall i :: 0 <= i < |writers| ==> writers[i].dict == reader.dict
    modifies reader.dict
    ensures forall a :: reader.Get(a) == LastWrite(writes, a, old(reader.Get(a)))
    ensures seen == LastWrite(writes, attr, old(reader.Get(attr)))
  {
    var i := 0;
    while i < |writes|
      invariant 0 <= i <= |writes|
      invariant forall a :: reader.Get(a) == LastWrite(writes[..i], a, old(reader.Get(a)))
    {
      writers[i].Set(writes[i].0, writes[i].1);
      assert writes[..i + 1][..i] == writes[..i];
      i := i + 1;
    }
    assert writes[..i] == writes;
    seen := reader.Get(attr);
  }

  /** Lines 14-20: x sees "Light", then the "Dark" written through y; y sees
      "Dark"; and the two instances are not the same object. */
  method SettingsDemo() returns (before: Option<string>, after: Option<string>, fromY: Option<string>, same: bool)
    ensures before == Some("Light") && after == Some("Dark") && fromY == Some("Dark") && !same
  {
    var shared := new SharedState();
    var x := new Monostate.Settings(shared);
    var y := new Monostate.Settings(shared);
    before := x.Get("theme");
    y.Set("theme", "Dark");
    after := x.Get("theme");
    fromY := y.Get("theme");
    same := x == y;
  }
}
