/** Which runtimes a rendered configuration selects, and where each of them keeps its files. */
module AdapterSelection {
  import opened Common
  import opened ServerIds

  datatype Adapter = Adapter(core: string, protocol: string, transports: seq<string>, securityModes: seq<string>)

  datatype Descriptor = Descriptor(core: string, protocol: string, transport: string, security: string)

  const SING_BOX := "sing-box"
  const WIREGUARD := "wireguard"
  const HYSTERIA := "hysteria"
  const MTG := "mtg"

  const MANAGED_CORES: set<string> := {SING_BOX, WIREGUARD, HYSTERIA, MTG}

  /** A place for one runtime: its active path, backup directory and staging directory. */
  datatype Slot = SingBoxSlot | WireGuardSlot | HysteriaSlot | MtgSlot

  /** Every core that is not one of the special three shares the sing-box storage. */
  function Storage(core: string): Slot {
    if core == WIREGUARD then WireGuardSlot
    else if core == HYSTERIA then HysteriaSlot
    else if core == MTG then MtgSlot
    else SingBoxSlot
  }

  /** Each special core has its own place; whatever else is named lives with sing-box. */
  lemma StorageOfCores(core: string)
    ensures Storage(core) == WireGuardSlot <==> core == "wireguard"
    ensures Storage(core) == HysteriaSlot <==> core == "hysteria"
    ensures Storage(core) == MtgSlot <==> core == "mtg"
    ensures Storage(core) == SingBoxSlot <==> core !in {"wireguard", "hysteria", "mtg"}
  {
    assert WIREGUARD[0] == 'w' && HYSTERIA[0] == 'h' && MTG[0] == 'm';
  }

  /** Different managed cores never share storage. */
  lemma StorageSeparates(a: string, b: string)
    requires a in MANAGED_CORES && b in MANAGED_CORES
    ensures Storage(a) == Storage(b) <==> a == b
  {
    assert SING_BOX != WIREGUARD && SING_BOX != HYSTERIA && SING_BOX != MTG;
  }

  predicate Blank(core: string) { TrimSpace(core) == "" }

  predicate Matches(a: Adapter, d: Descriptor) {
    a.core == d.core && a.protocol == d.protocol && d.transport in a.transports && d.security in a.securityModes
  }

  /** The adapter that serves a descriptor: the first candidate for a blank core, otherwise the first match. */
  function Serving(d: Descriptor, blank: bool, candidates: seq<Option<Adapter>>): (r: Option<Adapter>)
    requires candidates != []
    ensures r.Some? ==> r in candidates
  {
    if blank then candidates[0] else FirstMatch(d, candidates, 0)
  }

  function ServingBy(candidates: seq<Option<Adapter>>, blank: string -> bool): Descriptor -> Option<Adapter>
    requires candidates != []
  {
    (d: Descriptor) => Serving(d, blank(d.core), candidates)
  }

  function FirstMatch(d: Descriptor, candidates: seq<Option<Adapter>>, i: nat): (r: Option<Adapter>)
    requires i <= |candidates|
    ensures r.Some? ==> r in candidates && Matches(r.value, d)
    ensures r.None? ==> forall k :: i <= k < |candidates| && candidates[k].Some? ==> !Matches(candidates[k].value, d)
    decreases |candidates| - i
  {
    if i == |candidates| then None
    else if candidates[i].Some? && Matches(candidates[i].value, d) then candidates[i]
    else FirstMatch(d, candidates, i + 1)
  }

  ghost predicate DistinctCores(selected: seq<Adapter>) {
    forall i, k :: 0 <= i < k < |selected| ==> selected[i].core != selected[k].core
  }

  predicate HasCore(selected: seq<Adapter>, core: string) {
    exists i :: 0 <= i < |selected| && selected[i].core == core
  }

  /** One adapter per core, in the order in which the descriptors first need it. */
  function Select(descriptors: seq<Descriptor>, serving: Descriptor -> Option<Adapter>): Option<seq<Adapter>>
    decreases |descriptors|
  {
    if descriptors == [] then Some([])
    else
      var n := |descriptors| - 1;
      var before, a := Select(descriptors[..n], serving), serving(descriptors[n]);
      if before.None? || a.None? then None
      else if HasCore(before.value, a.value.core) then before
      else Some(before.value + [a.value])
  }

  /** The search for the first matching candidate. */
  method FindServing(d: Descriptor, candidates: seq<Option<Adapter>>, blank: string -> bool) returns (matched: Option<Adapter>)
    requires candidates != []
    ensures matched == Serving(d, blank(d.core), candidates)
  {
    if blank(d.core) { return candidates[0]; }
    for i := 0 to |candidates|
      invariant FirstMatch(d, candidates, 0) == FirstMatch(d, candidates, i)
    {
      if candidates[i].Some? && Matches(candidates[i].value, d) { return candidates[i]; }
    }
    return None;
  }

  /** Selects one adapter per core; an unsupported descriptor or an empty selection is refused. */
  method SelectAdapters(descriptors: seq<Descriptor>, candidates: seq<Option<Adapter>>, blank: string -> bool)
    returns (r: Result<seq<Adapter>>)
    requires candidates != []
    ensures var selected := Select(descriptors, ServingBy(candidates, blank));
            if selected.None? || selected.value == [] then r.Err? else r == Ok(selected.value)
  {
    ghost var serving := ServingBy(candidates, blank);
    var selected: seq<Adapter> := [];
    var seen: set<string> := {};
    for k := 0 to |descriptors|
      invariant Select(descriptors[..k], serving) == Some(selected)
      invariant forall c :: c in seen <==> HasCore(selected, c)
    {
      assert descriptors[..k + 1][..k] == descriptors[..k];
      var matched := FindServing(descriptors[k], candidates, blank);
      if matched.None? {
        SelectNeedsAll(descriptors, k, serving);
        return Err("unsupported VPN Core adapter");
      }
      var core := matched.value.core;
      if core in seen { continue; }
      seen := seen + {core};
      HasCoreMore(selected, matched.value);
      selected := selected + [matched.value];
    }
    assert descriptors[..|descriptors|] == descriptors;
    if selected == [] { return Err("no managed VPN Core adapters"); }
    return Ok(selected);
  }

  lemma HasCoreMore(selected: seq<Adapter>, a: Adapter)
    ensures forall c :: HasCore(selected + [a], c) <==> HasCore(selected, c) || c == a.core
  {
    forall c ensures HasCore(selected + [a], c) <==> HasCore(selected, c) || c == a.core {
      assert (selected + [a])[|selected|] == a;
      if HasCore(selected, c) {
        var i :| 0 <= i < |selected| && selected[i].core == c;
        assert (selected + [a])[i].core == c;
      }
    }
  }

  lemma {:induction false} SelectNeedsAll(descriptors: seq<Descriptor>, k: nat, serving: Descriptor -> Option<Adapter>)
    requires k < |descriptors| && serving(descriptors[k]).None?
    ensures Select(descriptors, serving).None?
    decreases |descriptors|
  {
    if k < |descriptors| - 1 { SelectNeedsAll(descriptors[..|descriptors| - 1], k, serving); }
  }

  /** The selection has one adapter per core, each serves some descriptor, and every descriptor's core is selected. */
  lemma {:induction false} SelectExact(descriptors: seq<Descriptor>, serving: Descriptor -> Option<Adapter>)
    requires Select(descriptors, serving).Some?
    ensures var selected := Select(descriptors, serving).value;
            && DistinctCores(selected)
            && (forall k :: 0 <= k < |descriptors| ==>
                  serving(descriptors[k]).Some? && HasCore(selected, serving(descriptors[k]).value.core))
            && (forall a :: a in selected ==> exists k :: 0 <= k < |descriptors| && serving(descriptors[k]) == Some(a))
    decreases |descriptors|
  {
    if descriptors != [] {
      var n := |descriptors| - 1;
      SelectExact(descriptors[..n], serving);
      var before, a := Select(descriptors[..n], serving).value, serving(descriptors[n]).value;
      HasCoreMore(before, a);
      var selected := Select(descriptors, serving).value;
      forall k | 0 <= k < |descriptors| ensures serving(descriptors[k]).Some? && HasCore(selected, serving(descriptors[k]).value.core) {
        if k < n { assert descriptors[..n][k] == descriptors[k]; }
      }
      forall x | x in selected ensures exists k :: 0 <= k < |descriptors| && serving(descriptors[k]) == Some(x) {
        if x in before {
          var k :| 0 <= k < n && serving(descriptors[..n][k]) == Some(x);
          assert serving(descriptors[k]) == Some(x);
        }
      }
    }
  }

  /** The blank-core rule or some candidate covers the descriptor. */
  predicate Supported(d: Descriptor, candidates: seq<Option<Adapter>>)
    requires candidates != []
  {
    if Blank(d.core) then candidates[0].Some?
    else exists i :: 0 <= i < |candidates| && candidates[i].Some? && Offers(candidates[i].value, d)
  }

  /** The adapter's core and protocol are those of the descriptor, and its transport and security are among the adapter's. */
  predicate Offers(a: Adapter, d: Descriptor) {
    && a.core == d.core && a.protocol == d.protocol
    && (exists i :: 0 <= i < |a.transports| && a.transports[i] == d.transport)
    && (exists i :: 0 <= i < |a.securityModes| && a.securityModes[i] == d.security)
  }

  /** The adapter is a candidate that matches the descriptor, or the first one standing in for a blank core. */
  predicate Serves(a: Adapter, d: Descriptor, candidates: seq<Option<Adapter>>)
    requires candidates != []
  {
    if Blank(d.core) then candidates[0] == Some(a) else Some(a) in candidates && Offers(a, d)
  }

  lemma OffersIsMatch(a: Adapter, d: Descriptor)
    ensures Offers(a, d) <==> Matches(a, d)
  {
  }

  lemma SupportedIsServed(d: Descriptor, candidates: seq<Option<Adapter>>)
    requires candidates != []
    ensures Supported(d, candidates) <==> Serving(d, Blank(d.core), candidates).Some?
  {
    forall i | 0 <= i < |candidates| && candidates[i].Some? ensures Offers(candidates[i].value, d) <==> Matches(candidates[i].value, d) {
      OffersIsMatch(candidates[i].value, d);
    }
    var r := FirstMatch(d, candidates, 0);
    if r.Some? {
      var i :| 0 <= i < |candidates| && candidates[i] == r;
    }
  }

  lemma {:induction false} SelectsIffAllServed(descriptors: seq<Descriptor>, serving: Descriptor -> Option<Adapter>)
    ensures Select(descriptors, serving).Some? <==> forall k :: 0 <= k < |descriptors| ==> serving(descriptors[k]).Some?
    decreases |descriptors|
  {
    if descriptors != [] {
      var n := |descriptors| - 1;
      SelectsIffAllServed(descriptors[..n], serving);
      assert forall k :: 0 <= k < n ==> descriptors[..n][k] == descriptors[k];
    }
  }

  /** A rendered configuration selects runtimes exactly if all its descriptors are supported. */
  lemma SelectsIffSupported(descriptors: seq<Descriptor>, candidates: seq<Option<Adapter>>)
    requires candidates != []
    ensures Select(descriptors, ServingBy(candidates, Blank)).Some? <==>
            forall k :: 0 <= k < |descriptors| ==> Supported(descriptors[k], candidates)
  {
    SelectsIffAllServed(descriptors, ServingBy(candidates, Blank));
    forall k | 0 <= k < |descriptors|
      ensures Supported(descriptors[k], candidates) <==> ServingBy(candidates, Blank)(descriptors[k]).Some?
    {
      SupportedIsServed(descriptors[k], candidates);
    }
  }

  /** A blank core selects the first candidate's core and any other core itself; nothing else is selected. */
  lemma SelectedServe(descriptors: seq<Descriptor>, candidates: seq<Option<Adapter>>)
    requires candidates != [] && Select(descriptors, ServingBy(candidates, Blank)).Some?
    ensures var selected := Select(descriptors, ServingBy(candidates, Blank)).value;
            && DistinctCores(selected)
            && (forall k :: 0 <= k < |descriptors| ==>
                  if Blank(descriptors[k].core) then candidates[0].Some? && HasCore(selected, candidates[0].value.core)
                  else HasCore(selected, descriptors[k].core))
            && (forall a :: a in selected ==> exists k :: 0 <= k < |descriptors| && Serves(a, descriptors[k], candidates))
  {
    var serving := ServingBy(candidates, Blank);
    SelectExact(descriptors, serving);
    forall a | a in Select(descriptors, serving).value
      ensures exists k :: 0 <= k < |descriptors| && Serves(a, descriptors[k], candidates)
    {
      var k :| 0 <= k < |descriptors| && serving(descriptors[k]) == Some(a);
      OffersIsMatch(a, descriptors[k]);
      assert Serves(a, descriptors[k], candidates);
    }
  }

  /** With managed candidates the selected runtimes have storage of their own. */
  lemma SelectedStorageDistinct(selected: seq<Adapter>)
    requires DistinctCores(selected) && forall i :: 0 <= i < |selected| ==> selected[i].core in MANAGED_CORES
    ensures forall i, k :: 0 <= i < k < |selected| ==> Storage(selected[i].core) != Storage(selected[k].core)
  {
    forall i, k | 0 <= i < k < |selected| ensures Storage(selected[i].core) != Storage(selected[k].core) {
      StorageSeparates(selected[i].core, selected[k].core);
    }
  }
}
