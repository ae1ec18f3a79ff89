/** The top-level script tools.py: the same pipeline under the older rules,
    with a fixed prefix, no stop flag, no skip title and no deduplication. */
module Script {
  import opened JsonValue
  import opened Streams
  import opened Staging
  import opened Normaliser
  import opened Collector
  import opened Playlist

  const PREFIX: string := "http://api.hclyz.com:81/mf/"

  /** `final_data` at the end of the script, or `None` when the script dies
      before the per-item loop (failed root fetch, unusable root, a staging item
      that raises). */
  function Scripted(root: Option<Json>, fetch: (nat, string) -> Fetch): Option<seq<Entry>> {
    if root.None? || RootItems(root.value).None? || Stage(ScriptRules, PREFIX, RootItems(root.value).value).None? then None
    else
      var staging := Stage(ScriptRules, PREFIX, RootItems(root.value).value).value;
      Some(Collected(ScriptRules, PREFIX, staging, fetch, |staging|))
  }

  /** The staging loop (`json_data`): every item kept, every address prefixed. */
  method BuildStaging(items: seq<Json>) returns (staging: Option<seq<Entry>>)
    ensures staging == Stage(ScriptRules, PREFIX, items)
  {
    var acc: seq<Entry> := [];
    var i := 0;
    while i < |items|
      invariant 0 <= i <= |items|
      invariant Stage(ScriptRules, PREFIX, items[..i]) == Some(acc)
    {
      assert items[..i + 1][..i] == items[..i];
      var step := StageStep(ScriptRules, PREFIX, items[i]);
      match step {
        case Abort =>
          AbortIsFinal(ScriptRules, PREFIX, items, i + 1);
          return None;
        case Skip =>
        case Keep(e) =>
          acc := acc + [e];
      }
      i := i + 1;
    }
    assert items[..i] == items;
    return Some(acc);
  }

  /** The per-item loop (`final_data`): an item that raises is skipped. */
  method CollectItems(staging: seq<Entry>, fetch: (nat, string) -> Fetch) returns (final: seq<Entry>)
    ensures final == Collected(ScriptRules, PREFIX, staging, fetch, |staging|)
  {
    final := [];
    CollectedNone(ScriptRules, PREFIX, staging, fetch);
    var i := 0;
    while i < |staging|
      invariant 0 <= i <= |staging|
      invariant final == Collected(ScriptRules, PREFIX, staging, fetch, i)
    {
      var entries := CollectOne(ScriptRules, PREFIX, staging, fetch, i);
      CollectedNext(ScriptRules, PREFIX, staging, fetch, i);
      final := final + entries;
      i := i + 1;
    }
  }

  /** The whole script: the text of result.m3u8, or `None` when it dies early. */
  method Run(root: Option<Json>, fetch: (nat, string) -> Fetch) returns (playlist: Option<string>)
    ensures playlist == if Scripted(root, fetch).None? then None else Some(Render(Scripted(root, fetch).value))
  {
    if root.None? {
      return None;
    }
    var items := RootItems(root.value);
    if items.None? {
      return None;
    }
    var staging := BuildStaging(items.value);
    if staging.None? {
      return None;
    }
    var final := CollectItems(staging.value, fetch);
    var text := WritePlaylist(final);
    return Some(text);
  }

  /** The script's file lists every collected entry, in collection order,
      duplicates included (there is no deduplication step). */
  lemma PlaylistListsEverything(root: Option<Json>, fetch: (nat, string) -> Fetch)
    requires Scripted(root, fetch).Some?
    requires forall e :: e in Scripted(root, fetch).value ==> Playlist.OneLine(e.title) && Playlist.OneLine(e.address)
    ensures Parse(Render(Scripted(root, fetch).value)) == Some(Scripted(root, fetch).value)
  {
    var es := Scripted(root, fetch).value;
    var staging := Stage(ScriptRules, PREFIX, RootItems(root.value).value).value;
    CollectedAddresses(ScriptRules, PREFIX, staging, fetch, |staging|);
    WrittenAll(es);
    RoundTrip(es);
  }
}
