/** The staging step: from the root document's `pingtai` items to the staging list. */
module Staging {
  import opened JsonValue
  import opened Streams
  import opened Resolver

  /** What one pass of the staging loop body does with one item. */
  datatype Step = Keep(entry: Entry) | Skip | Abort

  /** The items `for item in raw_data['pingtai']` walks over, or `None` when that
      raises. Iterating a string or a dict yields strings, on which `item.get`
      raises, so only an empty one gets through, as no items at all. */
  function RootItems(root: Json): Option<seq<Json>> {
    match root
    case JObj(m) =>
      if "pingtai" !in m then None
      else (
        match m["pingtai"]
        case JArr(xs) => Some(xs)
        case JStr(s) => if s == [] then Some([]) else None
        case JObj(f) => if f == map[] then Some([]) else None
        case _ => None)
    case _ => None
  }

  predicate TitledSkip(item: Json) {
    item.JObj? && Get(item.fields, "title", JStr("")) == JStr(SKIP_TITLE)
  }

  /** One staging item. A non-dict item, or a non-string address of an entry that
      is not skipped, raises; a non-string title is treated as an error as well. */
  function StageStep(v: Variant, prefix: string, item: Json): Step {
    if !item.JObj? then Abort
    else
      var title := Get(item.fields, "title", JStr(""));
      var address := Get(item.fields, "address", JStr(""));
      if v == GuiRules && title == JStr(SKIP_TITLE) then Skip
      else if !address.JStr? || !title.JStr? then Abort
      else Keep(Entry(title.s, StagingAddress(v, prefix, address.s)))
  }

  /** The staging list built from `items`, or `None` when some item raises. */
  function Stage(v: Variant, prefix: string, items: seq<Json>): Option<seq<Entry>>
    decreases |items|
  {
    if items == [] then Some([])
    else
      match Stage(v, prefix, items[..|items| - 1])
      case None => None
      case Some(acc) =>
        match StageStep(v, prefix, items[|items| - 1])
        case Keep(e) => Some(acc + [e])
        case Skip => Some(acc)
        case Abort => None
  }

  /** The positions of the items that staging keeps, in increasing order. */
  ghost function KeptIndices(v: Variant, prefix: string, items: seq<Json>): (idx: seq<nat>)
    ensures forall k :: 0 <= k < |idx| ==> idx[k] < |items| && StageStep(v, prefix, items[idx[k]]).Keep?
    ensures forall k, l :: 0 <= k < l < |idx| ==> idx[k] < idx[l]
    ensures forall i :: 0 <= i < |items| && StageStep(v, prefix, items[i]).Keep? ==> i in idx
    decreases |items|
  {
    if items == [] then []
    else
      var n := |items| - 1;
      var init := items[..n];
      var rest := KeptIndices(v, prefix, init);
      assert forall i :: 0 <= i < n ==> items[i] == init[i];
      if StageStep(v, prefix, items[n]).Keep? then
        var idx := rest + [n];
        assert forall k :: 0 <= k < |rest| ==> idx[k] == rest[k];
        assert n in idx;
        idx
      else rest
  }

  /** Number of items titled `卫视直播`. */
  function SkipCount(items: seq<Json>): (n: nat)
    ensures n <= |items|
    decreases |items|
  {
    if items == [] then 0
    else SkipCount(items[..|items| - 1]) + (if TitledSkip(items[|items| - 1]) then 1 else 0)
  }

  /** Once a prefix of the items raises, staging as a whole fails. */
  lemma {:induction false} AbortIsFinal(v: Variant, prefix: string, items: seq<Json>, i: nat)
    requires i <= |items| && Stage(v, prefix, items[..i]).None?
    ensures Stage(v, prefix, items).None?
    decreases |items| - i
  {
    if i < |items| {
      assert items[..i + 1][..i] == items[..i];
      AbortIsFinal(v, prefix, items, i + 1);
    } else {
      assert items[..i] == items;
    }
  }

  /** Staging succeeds exactly when no item raises. */
  lemma {:induction false} StageSomeIff(v: Variant, prefix: string, items: seq<Json>)
    ensures Stage(v, prefix, items).Some? <==> forall i :: 0 <= i < |items| ==> !StageStep(v, prefix, items[i]).Abort?
    decreases |items|
  {
    if items != [] {
      var init := items[..|items| - 1];
      StageSomeIff(v, prefix, init);
      assert forall i :: 0 <= i < |init| ==> items[i] == init[i];
    }
  }

  /** Staging keeps the kept items' entries, in the items' order. */
  lemma {:induction false} StageIsKeptInOrder(v: Variant, prefix: string, items: seq<Json>, s: seq<Entry>)
    requires Stage(v, prefix, items) == Some(s)
    ensures |s| == |KeptIndices(v, prefix, items)|
    ensures forall k :: 0 <= k < |s| ==> StageStep(v, prefix, items[KeptIndices(v, prefix, items)[k]]) == Keep(s[k])
    decreases |items|
  {
    if items != [] {
      var n := |items| - 1;
      var init := items[..n];
      var acc := Stage(v, prefix, init).value;
      StageIsKeptInOrder(v, prefix, init, acc);
      var rest := KeptIndices(v, prefix, init);
      var idx := KeptIndices(v, prefix, items);
      var step := StageStep(v, prefix, items[n]);
      assert Stage(v, prefix, items) == match step
        case Keep(e) => Some(acc + [e])
        case Skip => Some(acc)
        case Abort => None;
      assert idx == if step.Keep? then rest + [n] else rest;
      forall k | 0 <= k < |s|
        ensures StageStep(v, prefix, items[idx[k]]) == Keep(s[k])
      {
        if k < |rest| {
          assert items[rest[k]] == init[rest[k]];
          assert idx[k] == rest[k];
          assert s[k] == acc[k];
        }
      }
    }
  }

  /** The GUI skips exactly the items titled `卫视直播`; the script skips nothing. */
  lemma SkipIff(v: Variant, prefix: string, item: Json)
    ensures StageStep(v, prefix, item).Skip? <==> v == GuiRules && TitledSkip(item)
  {
  }

  /** A kept entry carries the item's title and the staging rule's address. */
  lemma KeptEntry(v: Variant, prefix: string, item: Json, e: Entry)
    requires StageStep(v, prefix, item) == Keep(e)
    ensures item.JObj? && Get(item.fields, "title", JStr("")) == JStr(e.title)
    ensures var a := Get(item.fields, "address", JStr(""));
      a.JStr? && e.address == StagingAddress(v, prefix, a.s)
  {
  }

  /** GUI staging: N items, K of them titled `卫视直播`, give N - K entries. */
  lemma {:induction false} GuiStageLength(prefix: string, items: seq<Json>, s: seq<Entry>)
    requires Stage(GuiRules, prefix, items) == Some(s)
    ensures |s| == |items| - SkipCount(items)
    decreases |items|
  {
    if items != [] {
      var init := items[..|items| - 1];
      GuiStageLength(prefix, init, Stage(GuiRules, prefix, init).value);
    }
  }

  /** Script staging keeps every item, position for position. */
  lemma {:induction false} ScriptStageKeepsAll(prefix: string, items: seq<Json>, s: seq<Entry>)
    requires Stage(ScriptRules, prefix, items) == Some(s)
    ensures |s| == |items|
    ensures forall k :: 0 <= k < |s| ==> StageStep(ScriptRules, prefix, items[k]) == Keep(s[k])
    decreases |items|
  {
    if items != [] {
      var n := |items| - 1;
      var init := items[..n];
      var acc := Stage(ScriptRules, prefix, init).value;
      ScriptStageKeepsAll(prefix, init, acc);
      var step := StageStep(ScriptRules, prefix, items[n]);
      assert step.Keep? && s == acc + [step.entry];
      forall k | 0 <= k < |s|
        ensures StageStep(ScriptRules, prefix, items[k]) == Keep(s[k])
      {
        if k < n {
          assert items[k] == init[k];
        }
      }
    }
  }
}
