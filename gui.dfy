/** `LiveStreamExtractorApp.extract_data` of tools-gui.py: staging, then the
    per-item collector, with the cooperative stop flag read once per item. */
module Gui {
  import opened JsonValue
  import opened Text
  import opened Streams
  import opened Resolver
  import opened Staging
  import opened Normaliser
  import opened Collector

  /** The k-th reading of the stop flag in a run. Readings are numbered over the
      whole run: staging item k is reading k, collector item i is reading
      (number of `pingtai` items) + i. Readings past the end of `polls` are false. */
  predicate Polled(polls: seq<bool>, k: nat) {
    k < |polls| && polls[k]
  }

  /** How many items a loop with n items, whose first reading is `from`, gets
      through before it sees the flag set (n when it never does). */
  function FirstStop(polls: seq<bool>, from: nat, n: nat): (k: nat)
    ensures k <= n
    ensures k < n ==> Polled(polls, from + k)
    ensures forall j :: from <= j < from + k ==> !Polled(polls, j)
    decreases n
  {
    if n == 0 then 0
    else
      var k := FirstStop(polls, from, n - 1);
      if k < n - 1 || Polled(polls, from + n - 1) then k else n
  }

  lemma StopFound(polls: seq<bool>, from: nat, i: nat, n: nat)
    requires i < n && FirstStop(polls, from, i) == i && Polled(polls, from + i)
    ensures FirstStop(polls, from, n) == i
  {
  }

  lemma NoStopYet(polls: seq<bool>, from: nat, i: nat)
    requires FirstStop(polls, from, i) == i && !Polled(polls, from + i)
    ensures FirstStop(polls, from, i + 1) == i + 1
  {
  }

  /** What `extract_data` returns: `None` for a failed root fetch, an unusable
      root, a stop during staging or a staging item that raises; otherwise the
      entries collected before the stop flag was seen (all of them if never). */
  function Extracted(root: Option<Json>, prefix: string, polls: seq<bool>, fetch: (nat, string) -> Fetch): Option<seq<Entry>> {
    if root.None? || RootItems(root.value).None? then None
    else
      var items := RootItems(root.value).value;
      if FirstStop(polls, 0, |items|) < |items| || Stage(GuiRules, prefix, items).None? then None
      else
        var staging := Stage(GuiRules, prefix, items).value;
        Some(Collected(GuiRules, prefix, staging, fetch, FirstStop(polls, |items|, |staging|)))
  }

  /** The staging loop (`json_data`). */
  method BuildStaging(items: seq<Json>, prefix: string, polls: seq<bool>) returns (staging: Option<seq<Entry>>)
    ensures staging == if FirstStop(polls, 0, |items|) < |items| then None else Stage(GuiRules, prefix, items)
  {
    var acc: seq<Entry> := [];
    var i := 0;
    while i < |items|
      invariant 0 <= i <= |items|
      invariant FirstStop(polls, 0, i) == i
      invariant Stage(GuiRules, prefix, items[..i]) == Some(acc)
    {
      if Polled(polls, i) {
        StopFound(polls, 0, i, |items|);
        return None;
      }
      assert items[..i + 1][..i] == items[..i];
      var step := StageStep(GuiRules, prefix, items[i]);
      match step {
        case Abort =>
          AbortIsFinal(GuiRules, prefix, items, i + 1);
          return None;
        case Skip =>
        case Keep(e) =>
          acc := acc + [e];
      }
      i := i + 1;
    }
    assert items[..i] == items;
    return Some(acc);
  }

  /** The per-item loop (`final_data`); on a stop it returns what it has. */
  method CollectItems(staging: seq<Entry>, prefix: string, polls: seq<bool>, from: nat, fetch: (nat, string) -> Fetch)
    returns (final: seq<Entry>)
    ensures final == Collected(GuiRules, prefix, staging, fetch, FirstStop(polls, from, |staging|))
  {
    final := [];
    CollectedNone(GuiRules, prefix, staging, fetch);
    var i := 0;
    while i < |staging|
      invariant 0 <= i <= |staging|
      invariant FirstStop(polls, from, i) == i
      invariant final == Collected(GuiRules, prefix, staging, fetch, i)
    {
      if Polled(polls, from + i) {
        StopFound(polls, from, i, |staging|);
        return final;
      }
      var entries := CollectOne(GuiRules, prefix, staging, fetch, i);
      CollectedNext(GuiRules, prefix, staging, fetch, i);
      NoStopYet(polls, from, i);
      final := final + entries;
      i := i + 1;
    }
  }

  /** `extract_data` without its logging, progress and temporary file. */
  method Extract(root: Option<Json>, prefix: string, polls: seq<bool>, fetch: (nat, string) -> Fetch)
    returns (result: Option<seq<Entry>>)
    ensures result == Extracted(root, prefix, polls, fetch)
  {
    if root.None? {
      return None;
    }
    var items := RootItems(root.value);
    if items.None? {
      return None;
    }
    var staging := BuildStaging(items.value, prefix, polls);
    if staging.None? {
      return None;
    }
    var final := CollectItems(staging.value, prefix, polls, |items.value|, fetch);
    return Some(final);
  }

  // ---------------------------------------------------------------- properties

  /** Every entry `extract_data` returns has a non-empty address. */
  lemma ExtractedAddresses(root: Option<Json>, prefix: string, polls: seq<bool>, fetch: (nat, string) -> Fetch)
    requires Extracted(root, prefix, polls, fetch).Some?
    ensures forall e :: e in Extracted(root, prefix, polls, fetch).value ==> e.address != []
  {
    var items := RootItems(root.value).value;
    var staging := Stage(GuiRules, prefix, items).value;
    CollectedAddresses(GuiRules, prefix, staging, fetch, FirstStop(polls, |items|, |staging|));
  }

  /** A run stopped during the per-item loop returns exactly the entries the
      earlier items contributed: a prefix of what the run returns when never stopped. */
  lemma StoppedRunIsPrefix(root: Option<Json>, prefix: string, polls: seq<bool>, fetch: (nat, string) -> Fetch)
    requires Extracted(root, prefix, polls, fetch).Some?
    ensures Extracted(root, prefix, [], fetch).Some?
    ensures Extracted(root, prefix, polls, fetch).value <= Extracted(root, prefix, [], fetch).value
  {
    var items := RootItems(root.value).value;
    var staging := Stage(GuiRules, prefix, items).value;
    assert FirstStop([], 0, |items|) == |items|;
    assert FirstStop([], |items|, |staging|) == |staging|;
    CollectedGrows(GuiRules, prefix, staging, fetch, FirstStop(polls, |items|, |staging|), |staging|);
  }

  /** A stop during staging discards everything. */
  lemma StopDuringStaging(root: Json, prefix: string, polls: seq<bool>, fetch: (nat, string) -> Fetch)
    requires RootItems(root).Some? && FirstStop(polls, 0, |RootItems(root).value|) < |RootItems(root).value|
    ensures Extracted(Some(root), prefix, polls, fetch) == None
  {
  }

  // ---------------------------------------------------------------- sample runs

  const SAMPLE_ROOT: Json := JObj(map["pingtai" := JArr([
    JObj(map["title" := JStr("A"), "address" := JStr("x")]),
    JObj(map["title" := JStr(SKIP_TITLE), "address" := JStr("y")])])])

  const SAMPLE_ZHUBO: Json := JObj(map["zhubo" := JArr([JObj(map["title" := JStr("A1"), "address" := JStr("z")])])])

  /** The `卫视直播` item is dropped and the other one prefixed. */
  lemma SampleStaging()
    ensures Stage(GuiRules, "http://h/", RootItems(SAMPLE_ROOT).value) == Some([Entry("A", "http://h/x")])
  {
    var a := JObj(map["title" := JStr("A"), "address" := JStr("x")]);
    var b := JObj(map["title" := JStr(SKIP_TITLE), "address" := JStr("y")]);
    var items := RootItems(SAMPLE_ROOT).value;
    assert items == [a, b];
    assert Get(a.fields, "title", JStr("")) == JStr("A");
    assert Get(a.fields, "address", JStr("")) == JStr("x");
    assert "A" != SKIP_TITLE by { assert |"A"| != |SKIP_TITLE|; }
    assert "http://h/" + "x" == "http://h/x";
    assert StageStep(GuiRules, "http://h/", a) == Keep(Entry("A", "http://h/x"));
    assert Get(b.fields, "title", JStr("")) == JStr(SKIP_TITLE);
    assert StageStep(GuiRules, "http://h/", b) == Skip;
    assert [a][..|[a]| - 1] == [];
    assert [a][|[a]| - 1] == a;
    var e: seq<Entry> := [];
    assert e + [Entry("A", "http://h/x")] == [Entry("A", "http://h/x")];
    assert Stage(GuiRules, "http://h/", [a]) == Some([Entry("A", "http://h/x")]);
    assert items[..|items| - 1] == [a];
    assert items[|items| - 1] == b;
  }

  /** A `zhubo` document behind "A" gives its sub entry, prefixed. */
  lemma SampleZhubo(fetch: (nat, string) -> Fetch)
    requires fetch(0, "http://h/x").Body? && fetch(0, "http://h/x").parsed == Some(SAMPLE_ZHUBO)
    ensures Extracted(Some(SAMPLE_ROOT), "http://h/", [], fetch) == Some([Entry("A1", "http://h/z")])
  {
    SampleStaging();
    var staging := [Entry("A", "http://h/x")];
    SampleZhuboHarvest(fetch(0, "http://h/x"));
    assert FirstStop([], 2, 1) == 1;
    CollectedNone(GuiRules, "http://h/", staging, fetch);
    CollectedNext(GuiRules, "http://h/", staging, fetch, 0);
    var e: seq<Entry> := [];
    assert e + [Entry("A1", "http://h/z")] == [Entry("A1", "http://h/z")];
    assert Collected(GuiRules, "http://h/", staging, fetch, 1) == [Entry("A1", "http://h/z")];
  }

  lemma SampleZhuboHarvest(outcome: Fetch)
    requires outcome.Body? && outcome.parsed == Some(SAMPLE_ZHUBO)
    ensures ItemHarvest(GuiRules, "http://h/", Entry("A", "http://h/x"), outcome).entries == [Entry("A1", "http://h/z")]
  {
    var sub := JObj(map["title" := JStr("A1"), "address" := JStr("z")]);
    assert ShapeOf(SAMPLE_ZHUBO) == ZhuboDoc([sub]);
    assert Get(sub.fields, "title", JStr("A")) == JStr("A1");
    assert Get(sub.fields, "address", JStr("")) == JStr("z");
    assert !StartsWith("z", "http") && !StartsWith("z", "rtmp");
    assert "http://h/" + "z" == "http://h/z";
    assert SubStep(GuiRules, "http://h/", "A", sub.fields) == Add(Entry("A1", "http://h/z"));
    assert [sub][..0] == [];
    assert RunSteps(GuiRules, "http://h/", "A", [sub], true) == Harvest([Entry("A1", "http://h/z")], true);
    assert FallbackTitle("A") == "A";
  }

  /** A failed secondary fetch leaves "A" without entries; the run still completes. */
  lemma SampleTimeout(fetch: (nat, string) -> Fetch)
    requires fetch(0, "http://h/x") == Failed
    ensures Extracted(Some(SAMPLE_ROOT), "http://h/", [], fetch) == Some([])
  {
    SampleStaging();
    var staging := [Entry("A", "http://h/x")];
    assert FirstStop([], 2, 1) == 1;
    CollectedNone(GuiRules, "http://h/", staging, fetch);
    FailedItemSkipped(GuiRules, "http://h/", staging, fetch, 0);
  }
}
