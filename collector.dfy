/** The per-item collector: the staging list walked in order, each entry's
    secondary fetch normalised and appended to `final_data`. */
module Collector {
  import opened Streams
  import opened Normaliser

  /** The entries the i-th staging entry adds, whether or not it ran to its
      end. `fetch(i, a)` is what the i-th secondary request, to address `a`,
      came back with. */
  function Contribution(v: Variant, prefix: string, staging: seq<Entry>, fetch: (nat, string) -> Fetch, i: nat): seq<Entry>
    requires i < |staging|
  {
    ItemHarvest(v, prefix, staging[i], fetch(i, staging[i].address)).entries
  }

  /** What each staging entry adds, position for position. */
  function Contributions(v: Variant, prefix: string, staging: seq<Entry>, fetch: (nat, string) -> Fetch): (parts: seq<seq<Entry>>)
    ensures |parts| == |staging|
    ensures forall i :: 0 <= i < |staging| ==> parts[i] == Contribution(v, prefix, staging, fetch, i)
  {
    seq(|staging|, i requires 0 <= i < |staging| => Contribution(v, prefix, staging, fetch, i))
  }

  /** The parts one after the other. */
  function Flatten(parts: seq<seq<Entry>>): seq<Entry>
    decreases |parts|
  {
    if parts == [] then [] else Flatten(parts[..|parts| - 1]) + parts[|parts| - 1]
  }

  /** `final_data` after the first `n` staging entries. */
  function Collected(v: Variant, prefix: string, staging: seq<Entry>, fetch: (nat, string) -> Fetch, n: nat): seq<Entry>
    requires n <= |staging|
  {
    Flatten(Contributions(v, prefix, staging, fetch)[..n])
  }

  /** One round of the per-item loop: the secondary fetch and its harvest. */
  method CollectOne(v: Variant, prefix: string, staging: seq<Entry>, fetch: (nat, string) -> Fetch, i: nat)
    returns (entries: seq<Entry>)
    requires i < |staging|
    ensures entries == Contribution(v, prefix, staging, fetch, i)
  {
    var outcome := fetch(i, staging[i].address);
    var complete;
    entries, complete := HarvestItem(v, prefix, staging[i], outcome);
  }

  // ---------------------------------------------------------------- flattening

  lemma FlattenNext(parts: seq<seq<Entry>>, i: nat)
    requires i < |parts|
    ensures Flatten(parts[..i + 1]) == Flatten(parts[..i]) + parts[i]
  {
    assert parts[..i + 1][..i] == parts[..i];
  }

  lemma {:induction false} FlattenGrows(parts: seq<seq<Entry>>, m: nat, n: nat)
    requires m <= n <= |parts|
    ensures Flatten(parts[..m]) <= Flatten(parts[..n])
    decreases n - m
  {
    if m < n {
      FlattenGrows(parts, m, n - 1);
      FlattenNext(parts, n - 1);
    }
  }

  lemma {:induction false} FlattenContains(parts: seq<seq<Entry>>, e: Entry)
    requires e in Flatten(parts)
    ensures exists i :: 0 <= i < |parts| && e in parts[i]
    decreases |parts|
  {
    var n := |parts| - 1;
    var init := parts[..n];
    if e in Flatten(init) {
      FlattenContains(init, e);
      var i :| 0 <= i < |init| && e in init[i];
      assert parts[i] == init[i];
    } else {
      assert e in parts[n];
    }
  }

  // ---------------------------------------------------------------- properties of the collector

  /** One more staging entry appends its harvest. */
  lemma CollectedNext(v: Variant, prefix: string, staging: seq<Entry>, fetch: (nat, string) -> Fetch, i: nat)
    requires i < |staging|
    ensures Collected(v, prefix, staging, fetch, i + 1)
         == Collected(v, prefix, staging, fetch, i) + ItemHarvest(v, prefix, staging[i], fetch(i, staging[i].address)).entries
  {
    FlattenNext(Contributions(v, prefix, staging, fetch), i);
  }

  /** Before any staging entry nothing is collected. */
  lemma CollectedNone(v: Variant, prefix: string, staging: seq<Entry>, fetch: (nat, string) -> Fetch)
    ensures Collected(v, prefix, staging, fetch, 0) == []
  {
    assert Contributions(v, prefix, staging, fetch)[..0] == [];
  }

  /** Every collected entry has a non-empty address. */
  lemma CollectedAddresses(v: Variant, prefix: string, staging: seq<Entry>, fetch: (nat, string) -> Fetch, n: nat)
    requires n <= |staging|
    ensures forall e :: e in Collected(v, prefix, staging, fetch, n) ==> e.address != []
  {
    var parts := Contributions(v, prefix, staging, fetch)[..n];
    forall e | e in Flatten(parts) ensures e.address != [] {
      FlattenContains(parts, e);
      var i :| 0 <= i < |parts| && e in parts[i];
      ItemAddresses(v, prefix, staging[i], fetch(i, staging[i].address));
    }
  }

  /** What the first m items collect is kept, unchanged, at the front of what
      the first n items collect. */
  lemma CollectedGrows(v: Variant, prefix: string, staging: seq<Entry>, fetch: (nat, string) -> Fetch, m: nat, n: nat)
    requires m <= n <= |staging|
    ensures Collected(v, prefix, staging, fetch, m) <= Collected(v, prefix, staging, fetch, n)
  {
    FlattenGrows(Contributions(v, prefix, staging, fetch), m, n);
  }

  /** A staging entry whose fetch raises adds nothing, and the loop goes on
      with the next entry. */
  lemma FailedItemSkipped(v: Variant, prefix: string, staging: seq<Entry>, fetch: (nat, string) -> Fetch, i: nat)
    requires i < |staging| && fetch(i, staging[i].address) == Failed
    ensures Collected(v, prefix, staging, fetch, i + 1) == Collected(v, prefix, staging, fetch, i)
  {
    CollectedNext(v, prefix, staging, fetch, i);
  }
}
