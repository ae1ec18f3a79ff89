/** `deduplicate_data`: first-seen-wins by exact title, in first-seen order. */
module Dedup {
  import opened Streams

  function Titles(es: seq<Entry>): set<string> {
    set i | 0 <= i < |es| :: es[i].title
  }

  /** The entries of `es` whose title no earlier entry has. */
  function Dedup(es: seq<Entry>): seq<Entry>
    decreases |es|
  {
    if es == [] then []
    else
      var init := es[..|es| - 1];
      if es[|es| - 1].title in Titles(init) then Dedup(init) else Dedup(init) + [es[|es| - 1]]
  }

  /** The position of the first entry titled `t`. */
  function FirstIndex(es: seq<Entry>, t: string): (i: nat)
    requires t in Titles(es)
    ensures i < |es| && es[i].title == t
    ensures forall j :: 0 <= j < i ==> es[j].title != t
    decreases |es|
  {
    var init := es[..|es| - 1];
    if t in Titles(init) then
      var i := FirstIndex(init, t);
      assert es[i] == init[i];
      assert forall j :: 0 <= j < i ==> es[j] == init[j];
      i
    else
      assert forall j :: 0 <= j < |init| ==> es[j] == init[j] && es[j].title in Titles(init);
      |es| - 1
  }

  lemma TitlesSnoc(es: seq<Entry>, e: Entry)
    ensures Titles(es + [e]) == Titles(es) + {e.title}
  {
    var s := es + [e];
    assert forall i :: 0 <= i < |es| ==> s[i] == es[i];
    assert s[|es|] == e;
  }

  lemma FirstIndexSnoc(es: seq<Entry>, e: Entry, t: string)
    requires t in Titles(es)
    ensures t in Titles(es + [e]) && FirstIndex(es + [e], t) == FirstIndex(es, t)
  {
    TitlesSnoc(es, e);
    var s := es + [e];
    var i := FirstIndex(es, t);
    assert s[i] == es[i];
    assert forall j :: 0 <= j < |es| ==> s[j] == es[j];
  }

  lemma FirstIndexNew(es: seq<Entry>, e: Entry)
    requires e.title !in Titles(es)
    ensures e.title in Titles(es + [e]) && FirstIndex(es + [e], e.title) == |es|
  {
    TitlesSnoc(es, e);
    var s := es + [e];
    assert forall j :: 0 <= j < |es| ==> s[j] == es[j];
  }

  /** No title is lost, and none is added. */
  lemma {:induction false} DedupTitles(es: seq<Entry>)
    ensures Titles(Dedup(es)) == Titles(es)
    decreases |es|
  {
    if es != [] {
      var init := es[..|es| - 1];
      var e := es[|es| - 1];
      assert es == init + [e];
      DedupTitles(init);
      TitlesSnoc(init, e);
      if e.title !in Titles(init) {
        TitlesSnoc(Dedup(init), e);
      }
    }
  }

  /** The output titles are pairwise distinct. */
  lemma {:induction false} DedupDistinct(es: seq<Entry>)
    ensures forall i, j :: 0 <= i < j < |Dedup(es)| ==> Dedup(es)[i].title != Dedup(es)[j].title
    decreases |es|
  {
    if es != [] {
      var init := es[..|es| - 1];
      DedupDistinct(init);
      DedupTitles(init);
      var d := Dedup(init);
      assert forall i :: 0 <= i < |d| ==> d[i].title in Titles(d);
    }
  }

  /** The output is never longer than the input. */
  lemma {:induction false} DedupShorter(es: seq<Entry>)
    ensures |Dedup(es)| <= |es|
    decreases |es|
  {
    if es != [] {
      DedupShorter(es[..|es| - 1]);
    }
  }

  /** Each output entry is the first input entry with its title, and the output
      lists the titles in the order they are first seen. */
  lemma {:induction false} DedupFirstSeen(es: seq<Entry>)
    ensures forall k :: 0 <= k < |Dedup(es)| ==>
      Dedup(es)[k].title in Titles(es) && Dedup(es)[k] == es[FirstIndex(es, Dedup(es)[k].title)]
    ensures forall k, l :: 0 <= k < l < |Dedup(es)| ==>
      Dedup(es)[k].title in Titles(es) && Dedup(es)[l].title in Titles(es) &&
      FirstIndex(es, Dedup(es)[k].title) < FirstIndex(es, Dedup(es)[l].title)
    decreases |es|
  {
    if es != [] {
      var init := es[..|es| - 1];
      var e := es[|es| - 1];
      assert es == init + [e];
      DedupFirstSeen(init);
      DedupTitles(init);
      var d := Dedup(init);
      assert forall k :: 0 <= k < |d| ==> d[k].title in Titles(d);
      forall k | 0 <= k < |d|
        ensures d[k].title in Titles(es) && FirstIndex(es, d[k].title) == FirstIndex(init, d[k].title)
      {
        FirstIndexSnoc(init, e, d[k].title);
      }
      forall k | 0 <= k < |d|
        ensures es[FirstIndex(init, d[k].title)] == init[FirstIndex(init, d[k].title)]
      {
      }
      if e.title !in Titles(init) {
        FirstIndexNew(init, e);
        assert Dedup(es) == d + [e];
      }
    }
  }

  /** The dict `unique_entries`, filled in a loop, then listed in insertion order. */
  method Deduplicate(data: seq<Entry>) returns (unique: seq<Entry>)
    ensures unique == Dedup(data)
  {
    var byTitle: map<string, Entry> := map[];
    var order: seq<string> := [];  // the keys of byTitle, in insertion order
    var i := 0;
    while i < |data|
      invariant 0 <= i <= |data|
      invariant byTitle.Keys == Titles(data[..i])
      invariant |order| == |Dedup(data[..i])|
      invariant forall k :: 0 <= k < |order| ==>
        order[k] in byTitle && byTitle[order[k]] == Dedup(data[..i])[k]
    {
      var item := data[i];
      assert data[..i + 1] == data[..i] + [item];
      TitlesSnoc(data[..i], item);
      if item.title !in byTitle {
        byTitle := byTitle[item.title := item];
        order := order + [item.title];
      }
      i := i + 1;
    }
    assert data[..i] == data;
    unique := [];
    var j := 0;
    while j < |order|
      invariant 0 <= j <= |order|
      invariant unique == Dedup(data)[..j]
    {
      unique := unique + [byTitle[order[j]]];
      j := j + 1;
    }
  }
}
