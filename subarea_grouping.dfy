/**
 * The grouping step of `list_ports`: for each configured sub-area, in order, an
 * `HtmlSource` titled after it collects the extracted records of its port keys, in key
 * order, and is sent on. The channel is modelled as the sequence of sent sources.
 */
module SubAreaGrouping {
  import opened PortExtraction

  /** `SubArea { ports, title }`: a named, ordered list of port ids to report. */
  datatype SubArea = SubArea(ports: seq<string>, title: string)

  /** `HtmlSource`: the records gathered for one sub-area, under its title. */
  class HtmlSource {
    var ports: seq<PortInfo>
    var title: string

    /** `HtmlSource::new(title)`: no ports yet. */
    constructor (title: string)
      ensures this.title == title && ports == []
    {
      this.title := title;
      ports := [];
    }

    /** `push(port)`: appends as the last record; the title is untouched. */
    method Push(port: PortInfo)
      modifies this
      ensures ports == old(ports) + [port]
      ensures title == old(title)
    {
      ports := ports + [port];
    }
  }

  /** The records found in `found` for `keys`, in key order; keys without an entry are skipped. */
  function Hits(keys: seq<string>, found: map<string, PortInfo>): seq<PortInfo>
    decreases |keys|
  {
    if keys == [] then []
    else
      var key := keys[|keys| - 1];
      Hits(keys[..|keys| - 1], found) + (if key in found then [found[key]] else [])
  }

  /**
   * Lines 87-96 of `list_ports`: one source per sub-area, in sub-area order, titled
   * verbatim, holding exactly the hits of its keys; each is sent, even an empty one.
   */
  method SendSubAreas(portInfo: map<string, PortInfo>, filterSubareas: seq<SubArea>) returns (sent: seq<HtmlSource>)
    ensures |sent| == |filterSubareas|
    ensures forall i :: 0 <= i < |sent| ==>
      sent[i].title == filterSubareas[i].title && sent[i].ports == Hits(filterSubareas[i].ports, portInfo)
    ensures forall i, j :: 0 <= i < j < |sent| ==> sent[i] != sent[j]
  {
    sent := [];
    var s := 0;
    while s < |filterSubareas|
      invariant 0 <= s <= |filterSubareas| && |sent| == s
      invariant forall i :: 0 <= i < s ==>
        sent[i].title == filterSubareas[i].title && sent[i].ports == Hits(filterSubareas[i].ports, portInfo)
      invariant forall i, j :: 0 <= i < j < s ==> sent[i] != sent[j]
    {
      var subarea := filterSubareas[s];
      var portTableTrs := new HtmlSource(subarea.title);
      var k := 0;
      while k < |subarea.ports|
        invariant 0 <= k <= |subarea.ports|
        invariant portTableTrs.title == subarea.title
        invariant portTableTrs.ports == Hits(subarea.ports[..k], portInfo)
        invariant forall i :: 0 <= i < s ==> sent[i] != portTableTrs
        invariant forall i :: 0 <= i < s ==>
          sent[i].title == filterSubareas[i].title && sent[i].ports == Hits(filterSubareas[i].ports, portInfo)
      {
        var key := subarea.ports[k];
        assert subarea.ports[..k + 1][..k] == subarea.ports[..k];
        if key in portInfo {
          portTableTrs.Push(portInfo[key]);
        }
        k := k + 1;
      }
      assert subarea.ports[..k] == subarea.ports;
      sent := sent + [portTableTrs];
      s := s + 1;
    }
  }

  /** Grouping is compositional over the key list. */
  lemma {:induction false} HitsAppend(a: seq<string>, b: seq<string>, found: map<string, PortInfo>)
    ensures Hits(a + b, found) == Hits(a, found) + Hits(b, found)
    decreases |b|
  {
    if b != [] {
      var b' := b[..|b| - 1];
      assert (a + b)[..|a + b| - 1] == a + b';
      HitsAppend(a, b', found);
    } else {
      assert a + b == a;
    }
  }

  /** A present key contributes its record, an absent key nothing: no placeholder. */
  lemma HitsSingle(key: string, found: map<string, PortInfo>)
    ensures Hits([key], found) == if key in found then [found[key]] else []
  {
    assert [key][..0] == [];
  }

  /** A key missing from the extracted map can be dropped from the list without changing the group. */
  lemma HitsSkipsAbsent(a: seq<string>, key: string, b: seq<string>, found: map<string, PortInfo>)
    requires key !in found
    ensures Hits(a + [key] + b, found) == Hits(a + b, found)
  {
    HitsAppend(a + [key], b, found);
    HitsAppend(a, [key], found);
    HitsSingle(key, found);
    HitsAppend(a, b, found);
  }

  /** A group has at most one record per key, and exactly one per key exactly when every key is found. */
  lemma {:induction false} HitsLength(keys: seq<string>, found: map<string, PortInfo>)
    ensures |Hits(keys, found)| <= |keys|
    ensures |Hits(keys, found)| == |keys| <==> forall i :: 0 <= i < |keys| ==> keys[i] in found
    decreases |keys|
  {
    if keys != [] {
      var p := keys[..|keys| - 1];
      HitsLength(p, found);
      assert forall i :: 0 <= i < |p| ==> p[i] == keys[i];
    }
  }

  /** Every record of a group is the entry of one of its keys, and so carries one of its keys as id. */
  lemma {:induction false} HitsFromKeys(keys: seq<string>, found: map<string, PortInfo>)
    requires KeyedById(found)
    ensures forall p :: p in Hits(keys, found) ==> p.id in keys && p.id in found && found[p.id] == p
    decreases |keys|
  {
    if keys != [] {
      var p := keys[..|keys| - 1];
      HitsFromKeys(p, found);
      assert forall k :: k in p ==> k in keys;
    }
  }

  /** A found key listed n times yields its record n times: duplicates are kept. */
  lemma {:induction false} HitsMultiplicity(keys: seq<string>, found: map<string, PortInfo>, key: string)
    requires KeyedById(found) && key in found
    ensures multiset(Hits(keys, found))[found[key]] == multiset(keys)[key]
    decreases |keys|
  {
    if keys != [] {
      var p := keys[..|keys| - 1];
      var last := keys[|keys| - 1];
      HitsMultiplicity(p, found, key);
      assert keys == p + [last];
      assert last in found && found[last] == found[key] ==> last == key;
    }
  }
}
