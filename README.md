# Live-stream playlist extractor, modelled in Dafny

The repository turns a remote directory of live-stream sources into an m3u
playlist. There are two programs:

- `tools-gui.py` is a desktop tool. Its pipeline is `extract_data`,
  `deduplicate_data` and `generate_m3u`.
- `tools.py` is a bare script that runs the same pipeline without
  deduplication. It uses slightly different address rules.

Both programs run the same four stages:

1. **Root fetch.** The root JSON document is fetched and parsed.
2. **Staging.** The root's `pingtai` items become a staging list of
   `(title, address)` entries. The GUI drops items titled `卫视直播`. The GUI
   prefixes every address except `rtmp` ones. The script prefixes every
   address.
3. **Collection.** Each staging address is fetched. The **normaliser** turns
   each response into entries:
   - a JSON list contributes its dict elements;
   - a dict contributes its `zhubo` list, else its `pingtai` list, else
     itself;
   - a body that is not JSON contributes its stripped text as one address.

   Each sub address is **resolved**. The GUI leaves `http` and `rtmp`
   addresses alone, the script only `http` ones, and every other address
   gets the prefix. An entry whose fetch or processing raises is skipped.
   Entries it appended before raising stay.
4. **Output.** The GUI deduplicates by title, first-seen wins. Both programs
   then write `#EXTM3U` followed by an `#EXTINF:-1,<title>` line and an
   address line for each entry with an address.

## How the model is organised

| module | what it holds |
|---|---|
| `JsonValue` | the JSON values, Python truthiness and `dict.get` |
| `Text` | `startswith`, Python's `isspace`, and `strip` |
| `Streams` | the entry record, the shape of a fetch result, and the two rule sets |
| `Resolver` | the address and title rules |
| `Staging` | the staging step, as a spec function `Stage` |
| `Normaliser` | the per-document normaliser: spec functions plus the imperative loops `RunItems`, `Normalise` and `HarvestItem` |
| `Collector` | the per-item loop's specification `Collected` |
| `Dedup` | `deduplicate_data`: the spec function `Dedup` and the dict-filling method `Deduplicate` |
| `Playlist` | `generate_m3u`: the writing loop, its specification `Render`, and a reader `Parse` used to state the round trip |
| `Gui` | `extract_data`: the two loops and the stop flag |
| `Script` | `tools.py` from top to bottom |

The rules the two programs share differ only in data, so one type
`Variant = GuiRules | ScriptRules` selects the rule set. Every rule is
written once. The lemmas state where the two rule sets differ. Two
differences are control flow rather than data: only the GUI polls the stop
flag (once per item, in both loops), and only the GUI deduplicates its
result. They are kept apart in the model: `Gui.Extracted` takes the stop readings,
the GUI's deduplication is the module `Dedup`, and `Script` has neither.

The loops that accumulate lists are `while` loops. Each one is proved equal
to a recursive specification, and the properties are proved about that
specification. Python exceptions are modelled as values:

- a staging item that raises is `Abort`;
- a sub item that raises is `Halt`;
- a failed fetch is `Failed`;
- `None` stands for a run that `extract_data` or the script gives up.

The inputs the programs do not compute are parameters:

- **Root document.** `Option<Json>`. `None` means the root fetch or parse
  failed.
- **Network.** `fetch: (nat, string) -> Fetch` gives what the i-th secondary
  request to a given address returned: a failure, or a body with its JSON
  parse. A body that is not JSON has `parsed == None`.
- **Stop flag.** `polls: seq<bool>` holds the successive readings of
  `stop_event.is_set()`:
  - staging item k reads reading k;
  - collector item i reads reading (number of `pingtai` items) + i;
  - readings past the end of `polls` read false.

## Model

| member | source | states |
|---|---|---|
| Text.TrimStartSpace | tools-gui.py:281 | `lstrip` removes only white space (Python's `isspace` set), and the text it leaves does not start with white space |
| Text.TrimEndSpace | tools-gui.py:281 | `rstrip` removes only white space, and the text it leaves does not end with white space |
| Text.StripEmptyIff | tools-gui.py:281-282 | the stripped body is empty exactly when the whole body is white space |
| Text.StripIsSlice | tools.py:106 | `strip` keeps a contiguous slice of the body, starting right after the leading white space |
| Text.StripTrimsBothEnds | tools.py:106 | a non-empty stripped body neither starts nor ends with white space |
| Text.StripDropsOnlySpace | tools.py:106 | every character that `strip` drops, before or after the kept slice, is white space |
| Resolver.FallbackTitle | tools-gui.py:226 | `item['title'] or '未命名'` is never empty |
| Resolver.RtmpIsNotHttp | tools-gui.py:230 | an `rtmp` address never starts with `http`, so the two exemptions never overlap |
| Resolver.GuiResolveIff | tools-gui.py:228-231 | for a non-empty prefix, the GUI resolver returns the address unchanged if and only if it starts with `http` or `rtmp`; otherwise it returns prefix + address |
| Resolver.ScriptResolveIff | tools.py:57-59 | for a non-empty prefix, the script resolver returns the address unchanged if and only if it starts with `http`; an `rtmp` address gets the prefix |
| Resolver.ResolversDifferOnRtmp | tools.py:58 | for a non-empty prefix, the two resolvers give different results exactly on the `rtmp` addresses |
| Resolver.ResolveNonEmpty | tools-gui.py:228-235 | a non-empty address resolves to a non-empty address, either itself or prefix + itself |
| Resolver.GuiStagingAddressIff | tools-gui.py:172-175 | for a non-empty prefix, GUI staging leaves an address unchanged if and only if it starts with `rtmp`; an `http` address is prefixed too |
| Resolver.ScriptStagingAlwaysPrefixes | tools.py:16 | script staging prefixes every address |
| Staging.AbortIsFinal | tools-gui.py:181-184 | once a staging item raises, staging as a whole fails, whatever follows |
| Staging.StageSomeIff | tools-gui.py:158-184 | staging succeeds if and only if no item raises |
| Staging.KeptIndices | tools-gui.py:158-180 | the positions of the kept items are in range, strictly increasing, and include every kept item |
| Staging.StageIsKeptInOrder | tools-gui.py:177-180 | the staging list is exactly the kept items' entries, one per kept item, in the items' order |
| Staging.SkipIff | tools-gui.py:167-169 | an item is skipped if and only if it is the GUI and the title is exactly `卫视直播`; the script skips nothing |
| Staging.KeptEntry | tools-gui.py:163-180 | a kept entry is built from a dict item: the item's title (default `''`) and the staging rule applied to its string address (default `''`) |
| Staging.SkipCount | tools-gui.py:167 | the number of skip-titled items is at most the number of items |
| Staging.GuiStageLength | tools-gui.py:158-180 | successful GUI staging of N items with K titled `卫视直播` gives N - K entries |
| Staging.ScriptStageKeepsAll | tools.py:13-20 | successful script staging gives one entry per item, position for position |
| Normaliser.RunItems | tools-gui.py:224-235 | the `for sub_item` loop over a list computes `RunSteps`, the entries it appends and whether it ran to the end; it stops at the first element that raises |
| Normaliser.Normalise | tools-gui.py:222-277 | the shape dispatch on a parsed document computes `HarvestDoc` |
| Normaliser.HarvestItem | tools-gui.py:216-295 | the body of the per-item `try` after the fetch computes `ItemHarvest` |
| Normaliser.Objects | tools-gui.py:225 | the elements kept by the `isinstance(sub_item, dict)` filter are dicts |
| Normaliser.HaltIsFinal | tools-gui.py:296-300 | once a sub item raises, the rest of the list is not looked at, and the entries appended so far are kept |
| Normaliser.AddedEntry | tools-gui.py:226-235 | an appended sub entry has a non-empty string address resolved by the variant's rule, and the sub item's title or else the staging fallback |
| Normaliser.FalsyAddressDropped | tools-gui.py:227-228 | a sub item whose address is missing or falsy appends nothing |
| Normaliser.RunStepsAddresses | tools-gui.py:228 | every entry the sub-item loop appends has a non-empty address |
| Normaliser.RunStepsCompleteIff | tools-gui.py:241-251 | the sub-item loop runs to its end if and only if no element raises |
| Normaliser.RunStepsSnoc | tools-gui.py:224 | one more element extends the sub-item loop by one step |
| Normaliser.ListUsesOnlyDicts | tools-gui.py:224-225 | a top-level list gives exactly what the list of its dict elements gives |
| Normaliser.DictsOnlyStrictness | tools-gui.py:241-242 | on dict elements, the list rule (skip non-dicts) and the `zhubo` rule (raise on them) agree |
| Normaliser.ListAsZhubo | tools.py:51-63 | a top-level list gives what a `zhubo` document holding just its dict elements gives |
| Normaliser.ZhuboFirst | tools-gui.py:239-251 | a list-valued `zhubo` is all that a dict contributes, `pingtai` or not |
| Normaliser.PingtaiSecond | tools-gui.py:253-265 | without a list-valued `zhubo`, a list-valued `pingtai` is all that is used, read exactly as a `zhubo` list |
| Normaliser.BareLast | tools-gui.py:266-277 | otherwise the dict itself gives at most one entry, its own |
| Normaliser.FailedGivesNothing | tools-gui.py:296-300 | a failed fetch contributes nothing |
| Normaliser.TextBody | tools-gui.py:278-295 | a body that is not JSON adds nothing if it is all white space; otherwise it adds exactly one entry, with the fallback title and the resolved stripped text |
| Normaliser.ItemAddresses | tools-gui.py:216-300 | every entry a staging entry contributes has a non-empty address |
| Collector.CollectOne | tools-gui.py:206-300 | one round of the per-item loop yields that entry's contribution |
| Collector.CollectedNext | tools-gui.py:201-300 | each staging entry appends its harvest to `final_data`, partial harvests included |
| Collector.CollectedNone | tools-gui.py:198 | `final_data` starts empty |
| Collector.CollectedAddresses | tools-gui.py:201-300 | every collected entry has a non-empty address |
| Collector.CollectedGrows | tools-gui.py:201-204 | what the first m entries collect is a prefix of what the first n entries collect |
| Collector.FailedItemSkipped | tools-gui.py:296-300 | a staging entry whose fetch fails adds nothing |
| Gui.FirstStop | tools-gui.py:159-161 | the number of items a loop gets through before it sees the flag: no earlier reading is set, and the reading at that position is set unless every item was processed |
| Gui.StopFound | tools-gui.py:202-204 | a loop that sees the flag at item i stops there |
| Gui.NoStopYet | tools-gui.py:202 | a loop that does not see the flag at item i goes on to item i + 1 |
| Gui.BuildStaging | tools-gui.py:156-184 | the staging loop returns `None` on a stop or a raising item; otherwise it returns `Stage` |
| Gui.CollectItems | tools-gui.py:198-304 | the per-item loop returns the entries of the items before the first set reading, all of them if there is none |
| Gui.Extract | tools-gui.py:140-307 | `extract_data` computes `Extracted` |
| Gui.ExtractedAddresses | tools-gui.py:216-300 | every entry `extract_data` returns has a non-empty address |
| Gui.StoppedRunIsPrefix | tools-gui.py:201-204 | a run stopped in the per-item loop returns a prefix of the unstopped run's result |
| Gui.StopDuringStaging | tools-gui.py:159-161 | a stop during staging makes `extract_data` return `None` |
| Gui.SampleStaging | tools-gui.py:163-180 | a root with an item `A` and a `卫视直播` item stages to one entry, `A` with the prefixed address |
| Gui.SampleZhuboHarvest | tools-gui.py:239-251 | a `zhubo` document with one relative sub address gives that entry, prefixed |
| Gui.SampleZhubo | tools-gui.py:140-304 | the whole GUI run on that sample, with a `zhubo` response, returns `[("A1", prefix + "z")]` |
| Gui.SampleTimeout | tools-gui.py:296-300 | the same sample with a failed secondary fetch returns an empty list, not `None` |
| Dedup.TitlesSnoc | tools-gui.py:314-318 | one more entry adds exactly its title to the set of titles |
| Dedup.FirstIndex | tools-gui.py:317 | the first entry with a given title has that title, and no earlier entry has it |
| Dedup.DedupTitles | tools-gui.py:312-320 | deduplication loses no title and adds none |
| Dedup.DedupDistinct | tools-gui.py:317-318 | the output titles are pairwise distinct |
| Dedup.DedupShorter | tools-gui.py:320 | the output is never longer than the input |
| Dedup.DedupFirstSeen | tools-gui.py:314-320 | each output entry is the first input entry with its title (first-seen wins), and the output follows first-seen order |
| Dedup.Deduplicate | tools-gui.py:309-323 | filling the dict and listing its values computes `Dedup` |
| Playlist.LinesSnoc | tools-gui.py:330-335 | writing one more entry appends exactly that entry's lines |
| Playlist.WriteEntry | tools-gui.py:333-335 | one loop round writes the entry's two lines, or nothing when its address is empty |
| Playlist.WritePlaylist | tools-gui.py:328-335 | the writer produces `Render`: the header, then the two lines of each entry with an address |
| Playlist.RoundTrip | tools-gui.py:328-335 | when no title or address contains a newline, reading the file back gives exactly the entries with an address, in order and verbatim |
| Playlist.LinesRoundTrip | tools-gui.py:330-335 | with single-line titles and addresses, the entry lines after the header read back as the entries with an address |
| Playlist.WrittenAll | tools.py:131 | when every address is non-empty, every entry is written |
| Playlist.MultiLineTitleBreaksRoundTrip | tools.py:132 | a title containing a newline breaks the round trip |
| Script.BuildStaging | tools.py:11-20 | the staging loop computes `Stage(ScriptRules, …)` |
| Script.CollectItems | tools.py:33-121 | the per-item loop computes `Collected` over all staging entries |
| Script.Run | tools.py:5-133 | the script's file is `Render` of `Scripted`, or nothing when the script dies before writing it |
| Script.PlaylistListsEverything | tools.py:123-133 | with single-line titles and addresses, the script's file reads back as every collected entry, in collection order, duplicates included |

## Left out

- The desktop UI is not modelled: widgets, the worker thread, `process_data`,
  progress updates, `update_stats`, log messages and message boxes. Nor is
  `process_data`'s behaviour after a stop, which throws away the partial
  result `extract_data` returns.
- HTTP requests, timeouts and JSON parsing are not modelled. `fetch` and the
  root document stand in for them.
- File I/O is not modelled. The temporary staging file is written (and, in
  the script, read back) without changing any string, so it is not
  modelled. The m3u text is modelled as a string; opening and writing the
  file, and any failure to do so, is not.
- JSON numbers are integers only; floats are not modelled. Only their
  truthiness matters.
- StageStep, SubStep: a non-string title on an entry that would be
  appended is treated as an error. Python would carry the non-string value
  into the result.
- RootItems: a `pingtai` that is an empty string or an empty dict iterates
  to no items. A missing `pingtai` raises a `KeyError`. Any other value
  raises too: a number, bool or null when iterated, a non-empty string or
  dict on the first `item.get`. All of these are the same failure in the
  model.
- Resolver.GuiResolveIff, Resolver.ScriptResolveIff,
  Resolver.ResolversDifferOnRtmp, Resolver.GuiStagingAddressIff: these hold
  only for a non-empty prefix. With an empty prefix every address is "left
  unchanged".
- Playlist.RoundTrip: proved only for titles and addresses without a
  newline. `generate_m3u` writes both verbatim, so a multi-line value gives a
  file that does not read back (MultiLineTitleBreaksRoundTrip).
- The configured root URL and the GUI's default prefix are not modelled.
  The prefix is a parameter; the script's prefix is the constant
  `Script.PREFIX`.

In these places the model follows what the code does:

- A stop during staging returns `None`, not the partial result.
- GUI staging prefixes `http` addresses; only `rtmp` ones are left alone.
- An entry whose processing raises after appending some sub entries keeps
  those entries.
- A body that is not JSON adds an entry only when its stripped text is
  non-empty.
