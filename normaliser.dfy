/** The document normaliser: one secondary fetch result to a list of entries. */
module Normaliser {
  import opened JsonValue
  import opened Text
  import opened Streams
  import opened Resolver

  /** The document shapes, in the order the normaliser tests them. */
  datatype Shape =
    | ListDoc(items: seq<Json>)
    | ZhuboDoc(items: seq<Json>)
    | PingtaiDoc(items: seq<Json>)
    | BareDoc(fields: map<string, Json>)
    | OtherDoc

  function ShapeOf(doc: Json): Shape {
    match doc
    case JArr(xs) => ListDoc(xs)
    case JObj(m) =>
      if "zhubo" in m && m["zhubo"].JArr? then ZhuboDoc(m["zhubo"].items)
      else if "pingtai" in m && m["pingtai"].JArr? then PingtaiDoc(m["pingtai"].items)
      else BareDoc(m)
    case _ => OtherDoc
  }

  /** What the normaliser does with one sub item: append an entry, drop it, or
      stop the whole item because evaluating it raises. */
  datatype Sub = Add(entry: Entry) | Drop | Halt

  /** One dict sub item. A falsy address (missing, empty, null, 0, ...) is dropped;
      a truthy non-string address raises in `startswith`; a non-string title is
      treated as an error as well. */
  function SubStep(v: Variant, prefix: string, fallback: string, m: map<string, Json>): Sub {
    var address := Get(m, "address", JStr(""));
    var title := Get(m, "title", JStr(fallback));
    if !Truthy(address) then Drop
    else if !address.JStr? || !title.JStr? then Halt
    else Add(Entry(title.s, Resolve(v, prefix, address.s)))
  }

  /** One element of a list: a top-level list skips non-dicts (`strict == false`);
      `zhubo` and `pingtai` lists call `.get` on them, which raises (`strict`). */
  function ElementStep(v: Variant, prefix: string, fallback: string, x: Json, strict: bool): Sub {
    if x.JObj? then SubStep(v, prefix, fallback, x.fields)
    else if strict then Halt
    else Drop
  }

  /** The entries an item appends, and whether it got to its end without raising. */
  datatype Harvest = Harvest(entries: seq<Entry>, complete: bool)

  /** The harvest after one more sub item. */
  function Next(h: Harvest, step: Sub): Harvest {
    if !h.complete then h
    else
      match step
      case Add(e) => Harvest(h.entries + [e], true)
      case Drop => h
      case Halt => Harvest(h.entries, false)
  }

  /** The loop over the sub items of `xs`. */
  function RunSteps(v: Variant, prefix: string, fallback: string, xs: seq<Json>, strict: bool): Harvest
    decreases |xs|
  {
    if xs == [] then Harvest([], true)
    else Next(RunSteps(v, prefix, fallback, xs[..|xs| - 1], strict), ElementStep(v, prefix, fallback, xs[|xs| - 1], strict))
  }

  /** A parsed JSON document. */
  function HarvestDoc(v: Variant, prefix: string, fallback: string, doc: Json): Harvest {
    match ShapeOf(doc)
    case ListDoc(xs) => RunSteps(v, prefix, fallback, xs, false)
    case ZhuboDoc(xs) => RunSteps(v, prefix, fallback, xs, true)
    case PingtaiDoc(xs) => RunSteps(v, prefix, fallback, xs, true)
    case BareDoc(m) =>
      (match SubStep(v, prefix, fallback, m)
       case Add(e) => Harvest([e], true)
       case Drop => Harvest([], true)
       case Halt => Harvest([], false))
    case OtherDoc => Harvest([], true)
  }

  /** A body that is not JSON: its stripped text, if any, as one address. */
  function HarvestText(v: Variant, prefix: string, fallback: string, text: string): seq<Entry> {
    var t := Strip(text);
    if t == [] then [] else [Entry(fallback, Resolve(v, prefix, t))]
  }

  /** Everything the per-item loop body appends for one staging entry. */
  function ItemHarvest(v: Variant, prefix: string, staged: Entry, outcome: Fetch): Harvest {
    var fallback := FallbackTitle(staged.title);
    match outcome
    case Failed => Harvest([], false)
    case Body(text, None) => Harvest(HarvestText(v, prefix, fallback, text), true)
    case Body(_, Some(doc)) => HarvestDoc(v, prefix, fallback, doc)
  }

  /** The dict elements of a list, in order. */
  function Objects(xs: seq<Json>): (r: seq<Json>)
    ensures forall x :: x in r ==> x.JObj?
    decreases |xs|
  {
    if xs == [] then []
    else Objects(xs[..|xs| - 1]) + (if xs[|xs| - 1].JObj? then [xs[|xs| - 1]] else [])
  }

  // ---------------------------------------------------------------- the loops

  /** The `for sub_item in ...` loop. */
  method RunItems(v: Variant, prefix: string, fallback: string, xs: seq<Json>, strict: bool)
    returns (entries: seq<Entry>, complete: bool)
    ensures Harvest(entries, complete) == RunSteps(v, prefix, fallback, xs, strict)
  {
    entries := [];
    var i := 0;
    while i < |xs|
      invariant 0 <= i <= |xs|
      invariant RunSteps(v, prefix, fallback, xs[..i], strict) == Harvest(entries, true)
    {
      assert xs[..i + 1][..i] == xs[..i];
      var step := ElementStep(v, prefix, fallback, xs[i], strict);
      match step {
        case Add(e) =>
          entries := entries + [e];
        case Drop =>
        case Halt =>
          HaltIsFinal(v, prefix, fallback, xs, strict, i + 1);
          return entries, false;
      }
      i := i + 1;
    }
    assert xs[..i] == xs;
    complete := true;
  }

  /** The shape dispatch for a parsed document. */
  method Normalise(v: Variant, prefix: string, fallback: string, doc: Json)
    returns (entries: seq<Entry>, complete: bool)
    ensures Harvest(entries, complete) == HarvestDoc(v, prefix, fallback, doc)
  {
    match ShapeOf(doc) {
      case ListDoc(xs) =>
        entries, complete := RunItems(v, prefix, fallback, xs, false);
      case ZhuboDoc(xs) =>
        entries, complete := RunItems(v, prefix, fallback, xs, true);
      case PingtaiDoc(xs) =>
        entries, complete := RunItems(v, prefix, fallback, xs, true);
      case BareDoc(m) =>
        var step := SubStep(v, prefix, fallback, m);
        match step {
          case Add(e) => entries, complete := [e], true;
          case Drop => entries, complete := [], true;
          case Halt => entries, complete := [], false;
        }
      case OtherDoc =>
        entries, complete := [], true;
    }
  }

  /** The body of the per-item `try` block, after the fetch. */
  method HarvestItem(v: Variant, prefix: string, staged: Entry, outcome: Fetch)
    returns (entries: seq<Entry>, complete: bool)
    ensures Harvest(entries, complete) == ItemHarvest(v, prefix, staged, outcome)
  {
    var fallback := FallbackTitle(staged.title);
    match outcome {
      case Failed =>
        entries, complete := [], false;
      case Body(text, None) =>
        var t := Strip(text);
        if t == [] {
          entries := [];
        } else {
          entries := [Entry(fallback, Resolve(v, prefix, t))];
        }
        complete := true;
      case Body(_, Some(doc)) =>
        entries, complete := Normalise(v, prefix, fallback, doc);
    }
  }

  // ---------------------------------------------------------------- properties

  /** Once a sub item raises, the rest of the list is not looked at. */
  lemma {:induction false} HaltIsFinal(v: Variant, prefix: string, fallback: string, xs: seq<Json>, strict: bool, i: nat)
    requires i <= |xs| && !RunSteps(v, prefix, fallback, xs[..i], strict).complete
    ensures RunSteps(v, prefix, fallback, xs, strict) == RunSteps(v, prefix, fallback, xs[..i], strict)
    decreases |xs| - i
  {
    if i < |xs| {
      assert xs[..i + 1][..i] == xs[..i];
      HaltIsFinal(v, prefix, fallback, xs, strict, i + 1);
    } else {
      assert xs[..i] == xs;
    }
  }

  /** A sub item that is appended has a non-empty address, the title of the sub
      item or else the fallback title, and the resolved address. */
  lemma AddedEntry(v: Variant, prefix: string, fallback: string, m: map<string, Json>, e: Entry)
    requires SubStep(v, prefix, fallback, m) == Add(e)
    ensures "address" in m && m["address"].JStr? && m["address"].s != []
    ensures e.address == Resolve(v, prefix, m["address"].s) && e.address != []
    ensures e.title == if "title" in m then m["title"].s else fallback
  {
    ResolveNonEmpty(v, prefix, m["address"].s);
  }

  /** A sub item whose address is missing, empty or otherwise falsy adds nothing. */
  lemma FalsyAddressDropped(v: Variant, prefix: string, fallback: string, m: map<string, Json>)
    requires "address" !in m || !Truthy(m["address"])
    ensures SubStep(v, prefix, fallback, m) == Drop
  {
  }

  /** Every entry the sub-item loop appends has a non-empty address. */
  lemma {:induction false} RunStepsAddresses(v: Variant, prefix: string, fallback: string, xs: seq<Json>, strict: bool)
    ensures forall e :: e in RunSteps(v, prefix, fallback, xs, strict).entries ==> e.address != []
    decreases |xs|
  {
    if xs != [] {
      var init := xs[..|xs| - 1];
      RunStepsAddresses(v, prefix, fallback, init, strict);
      var x := xs[|xs| - 1];
      if x.JObj? && SubStep(v, prefix, fallback, x.fields).Add? {
        AddedEntry(v, prefix, fallback, x.fields, SubStep(v, prefix, fallback, x.fields).entry);
      }
    }
  }

  /** The sub-item loop runs to the end exactly when no element raises. */
  lemma {:induction false} RunStepsCompleteIff(v: Variant, prefix: string, fallback: string, xs: seq<Json>, strict: bool)
    ensures RunSteps(v, prefix, fallback, xs, strict).complete
        <==> forall i :: 0 <= i < |xs| ==> !ElementStep(v, prefix, fallback, xs[i], strict).Halt?
    decreases |xs|
  {
    if xs != [] {
      var init := xs[..|xs| - 1];
      RunStepsCompleteIff(v, prefix, fallback, init, strict);
      assert forall i :: 0 <= i < |init| ==> xs[i] == init[i];
    }
  }

  /** The sub-item loop after one more element. */
  lemma RunStepsSnoc(v: Variant, prefix: string, fallback: string, xs: seq<Json>, x: Json, strict: bool)
    ensures RunSteps(v, prefix, fallback, xs + [x], strict)
         == Next(RunSteps(v, prefix, fallback, xs, strict), ElementStep(v, prefix, fallback, x, strict))
  {
    assert (xs + [x])[..|xs|] == xs;
  }

  /** A top-level list uses only its dict elements. */
  lemma {:induction false} ListUsesOnlyDicts(v: Variant, prefix: string, fallback: string, xs: seq<Json>)
    ensures RunSteps(v, prefix, fallback, xs, false) == RunSteps(v, prefix, fallback, Objects(xs), false)
    decreases |xs|
  {
    if xs != [] {
      var init := xs[..|xs| - 1];
      var x := xs[|xs| - 1];
      ListUsesOnlyDicts(v, prefix, fallback, init);
      if x.JObj? {
        assert Objects(xs) == Objects(init) + [x];
        RunStepsSnoc(v, prefix, fallback, Objects(init), x, false);
      } else {
        assert Objects(xs) == Objects(init) + [];
        assert Objects(init) + [] == Objects(init);
      }
    }
  }

  /** On dict elements only, skipping and raising on non-dicts coincide. */
  lemma {:induction false} DictsOnlyStrictness(v: Variant, prefix: string, fallback: string, xs: seq<Json>)
    requires forall x :: x in xs ==> x.JObj?
    ensures RunSteps(v, prefix, fallback, xs, false) == RunSteps(v, prefix, fallback, xs, true)
    decreases |xs|
  {
    if xs != [] {
      var init := xs[..|xs| - 1];
      assert forall x :: x in init ==> x in xs;
      DictsOnlyStrictness(v, prefix, fallback, init);
      assert xs[|xs| - 1] in xs;
    }
  }

  /** A top-level list gives what a `zhubo` list of just its dict elements gives. */
  lemma ListAsZhubo(v: Variant, prefix: string, fallback: string, xs: seq<Json>)
    ensures HarvestDoc(v, prefix, fallback, JArr(xs))
         == HarvestDoc(v, prefix, fallback, JObj(map["zhubo" := JArr(Objects(xs))]))
  {
    ListUsesOnlyDicts(v, prefix, fallback, xs);
    DictsOnlyStrictness(v, prefix, fallback, Objects(xs));
  }

  /** A list-valued `zhubo` is all that is used, whatever else (`pingtai`
      included) the dict holds. */
  lemma ZhuboFirst(v: Variant, prefix: string, fallback: string, m: map<string, Json>)
    requires "zhubo" in m && m["zhubo"].JArr?
    ensures HarvestDoc(v, prefix, fallback, JObj(m))
         == HarvestDoc(v, prefix, fallback, JObj(map["zhubo" := m["zhubo"]]))
  {
  }

  /** Without a list-valued `zhubo`, a list-valued `pingtai` is all that is used,
      and it is read exactly as a `zhubo` list would be. */
  lemma PingtaiSecond(v: Variant, prefix: string, fallback: string, m: map<string, Json>)
    requires !("zhubo" in m && m["zhubo"].JArr?)
    requires "pingtai" in m && m["pingtai"].JArr?
    ensures HarvestDoc(v, prefix, fallback, JObj(m))
         == HarvestDoc(v, prefix, fallback, JObj(map["pingtai" := m["pingtai"]]))
         == HarvestDoc(v, prefix, fallback, JObj(map["zhubo" := m["pingtai"]]))
  {
  }

  /** Otherwise the dict itself is the one entry. */
  lemma BareLast(v: Variant, prefix: string, fallback: string, m: map<string, Json>)
    requires !("zhubo" in m && m["zhubo"].JArr?)
    requires !("pingtai" in m && m["pingtai"].JArr?)
    ensures HarvestDoc(v, prefix, fallback, JObj(m)).entries
         == if SubStep(v, prefix, fallback, m).Add? then [SubStep(v, prefix, fallback, m).entry] else []
  {
  }

  /** A failed fetch contributes no entry. */
  lemma FailedGivesNothing(v: Variant, prefix: string, staged: Entry)
    ensures ItemHarvest(v, prefix, staged, Failed) == Harvest([], false)
  {
  }

  /** A non-JSON body adds nothing when it is all white space, and otherwise
      exactly one entry, under the staging title (or `未命名`), with the stripped
      text resolved as an address. */
  lemma TextBody(v: Variant, prefix: string, staged: Entry, text: string)
    ensures var h := ItemHarvest(v, prefix, staged, Body(text, None));
      && h.complete
      && (h.entries == [] <==> AllSpace(text))
      && (!AllSpace(text) ==> h.entries == [Entry(FallbackTitle(staged.title), Resolve(v, prefix, Strip(text)))])
  {
    StripEmptyIff(text);
  }

  /** Every entry an item contributes has a non-empty address. */
  lemma ItemAddresses(v: Variant, prefix: string, staged: Entry, outcome: Fetch)
    ensures forall e :: e in ItemHarvest(v, prefix, staged, outcome).entries ==> e.address != []
  {
    var fallback := FallbackTitle(staged.title);
    match outcome
    case Failed =>
    case Body(text, None) =>
      var t := Strip(text);
      if t != [] { ResolveNonEmpty(v, prefix, t); }
    case Body(_, Some(doc)) =>
      match ShapeOf(doc)
      case ListDoc(xs) => RunStepsAddresses(v, prefix, fallback, xs, false);
      case ZhuboDoc(xs) => RunStepsAddresses(v, prefix, fallback, xs, true);
      case PingtaiDoc(xs) => RunStepsAddresses(v, prefix, fallback, xs, true);
      case BareDoc(m) =>
        if SubStep(v, prefix, fallback, m).Add? {
          AddedEntry(v, prefix, fallback, m, SubStep(v, prefix, fallback, m).entry);
        }
      case OtherDoc =>
  }
}
