/** `generate_m3u`: the playlist text, and a reader for it. */
module Playlist {
  import opened JsonValue
  import opened Text
  import opened Streams

  const HEADER: string := "#EXTM3U\n"
  const EXTINF: string := "#EXTINF:-1,"

  /** The two lines written for one entry; none for an empty address. */
  function EntryLines(e: Entry): string {
    if e.address == [] then [] else EXTINF + e.title + "\n" + e.address + "\n"
  }

  function Lines(es: seq<Entry>): string
    decreases |es|
  {
    if es == [] then [] else EntryLines(es[0]) + Lines(es[1..])
  }

  /** The whole file. */
  function Render(es: seq<Entry>): string {
    HEADER + Lines(es)
  }

  /** The entries that get written: those with a non-empty address, in order. */
  function Written(es: seq<Entry>): seq<Entry>
    decreases |es|
  {
    if es == [] then []
    else (if es[0].address == [] then [] else [es[0]]) + Written(es[1..])
  }

  lemma {:induction false} LinesSnoc(es: seq<Entry>, e: Entry)
    ensures Lines(es + [e]) == Lines(es) + EntryLines(e)
    decreases |es|
  {
    if es == [] {
      assert [e][1..] == [];
    } else {
      assert (es + [e])[1..] == es[1..] + [e];
      LinesSnoc(es[1..], e);
    }
  }

  /** The writing loop: the header, then two lines per entry with an address. */
  method WritePlaylist(es: seq<Entry>) returns (text: string)
    ensures text == Render(es)
  {
    text := HEADER;
    var i := 0;
    while i < |es|
      invariant 0 <= i <= |es|
      invariant text == HEADER + Lines(es[..i])
    {
      var item := es[i];
      ghost var before := text;
      text := WriteEntry(text, item);
      WriteStep(es[..i], item, before, text);
      TakeOneMore(es, i);
      i := i + 1;
    }
    assert es[..i] == es;
  }

  /** One round of the writing loop extends the text by the entry's lines. */
  lemma WriteStep(done: seq<Entry>, item: Entry, before: string, after: string)
    requires before == HEADER + Lines(done) && after == before + EntryLines(item)
    ensures after == HEADER + Lines(done + [item])
  {
    LinesSnoc(done, item);
    Assoc(HEADER, Lines(done), EntryLines(item));
  }

  lemma TakeOneMore<T>(s: seq<T>, i: nat)
    requires i < |s|
    ensures s[..i + 1] == s[..i] + [s[i]]
  {
  }

  /** The body of the writing loop: the `#EXTINF` line and the address line,
      skipped for an entry without an address. */
  method WriteEntry(text: string, e: Entry) returns (after: string)
    ensures after == text + EntryLines(e)
  {
    after := text;
    if e.address != [] {
      after := after + (EXTINF + e.title + "\n");
      after := after + (e.address + "\n");
      Assoc(text, EXTINF + e.title + "\n", e.address + "\n");
    }
  }

  // ---------------------------------------------------------------- reading it back

  /** Position of the first `c` in `s`, or `|s|`. */
  function IndexOf(s: string, c: char): (i: nat)
    ensures i <= |s|
    ensures i < |s| ==> s[i] == c
    ensures forall j :: 0 <= j < i ==> s[j] != c
    decreases |s|
  {
    if s == [] then 0 else if s[0] == c then 0 else 1 + IndexOf(s[1..], c)
  }

  /** Reads `#EXTINF:-1,<title>` / `<address>` line pairs. */
  function ParseEntries(s: string): Option<seq<Entry>>
    decreases |s|
  {
    if s == [] then Some([])
    else if !StartsWith(s, EXTINF) then None
    else
      var r := s[|EXTINF|..];
      var i := IndexOf(r, '\n');
      if i == |r| then None
      else
        var r2 := r[i + 1..];
        var j := IndexOf(r2, '\n');
        if j == |r2| then None
        else
          match ParseEntries(r2[j + 1..])
          case None => None
          case Some(rest) => Some([Entry(r[..i], r2[..j])] + rest)
  }

  function Parse(s: string): Option<seq<Entry>> {
    if StartsWith(s, HEADER) then ParseEntries(s[|HEADER|..]) else None
  }

  predicate OneLine(s: string) {
    '\n' !in s
  }

  lemma IndexOfLine(a: string, b: string)
    requires OneLine(a)
    ensures IndexOf(a + ("\n" + b), '\n') == |a|
  {
    var s := a + ("\n" + b);
    assert s[|a|] == '\n';
    assert forall j :: 0 <= j < |a| ==> s[j] == a[j];
  }

  lemma Slices(a: string, b: string)
    ensures (a + b)[..|a|] == a && (a + b)[|a|..] == b
  {
  }

  /** Reading the file back gives the written entries, in order and verbatim,
      as long as no title or address spans several lines. */
  lemma {:induction false} RoundTrip(es: seq<Entry>)
    requires forall e :: e in es ==> OneLine(e.title) && OneLine(e.address)
    ensures Parse(Render(es)) == Some(Written(es))
  {
    assert Render(es)[..|HEADER|] == HEADER;
    assert Render(es)[|HEADER|..] == Lines(es);
    LinesRoundTrip(es);
  }

  lemma Assoc(a: string, b: string, c: string)
    ensures a + b + c == a + (b + c)
  {
  }

  /** An entry's lines followed by more text, with the concatenation nested to the right. */
  lemma EntryLinesThen(e: Entry, rest: string)
    requires e.address != []
    ensures EntryLines(e) + rest == EXTINF + (e.title + ("\n" + (e.address + ("\n" + rest))))
  {
    var t, a, n := e.title, e.address, "\n";
    Assoc(EXTINF + t + n + a, n, rest);
    Assoc(EXTINF + t + n, a, n + rest);
    Assoc(EXTINF + t, n, a + (n + rest));
    Assoc(EXTINF, t, n + (a + (n + rest)));
  }

  /** One entry's two lines read back as that entry. */
  lemma ParseOne(t: string, a: string, rest: string)
    requires OneLine(t) && OneLine(a)
    ensures ParseEntries(EXTINF + (t + ("\n" + (a + ("\n" + rest)))))
         == match ParseEntries(rest) case None => None case Some(es) => Some([Entry(t, a)] + es)
  {
    var r2 := a + ("\n" + rest);
    var r := t + ("\n" + r2);
    var s := EXTINF + r;
    Slices(EXTINF, r);
    IndexOfLine(t, r2);
    Slices(t, "\n" + r2);
    assert ("\n" + r2)[1..] == r2;
    IndexOfLine(a, rest);
    Slices(a, "\n" + rest);
    assert ("\n" + rest)[1..] == rest;
  }

  lemma {:induction false} LinesRoundTrip(es: seq<Entry>)
    requires forall e :: e in es ==> OneLine(e.title) && OneLine(e.address)
    ensures ParseEntries(Lines(es)) == Some(Written(es))
    decreases |es|
  {
    if es != [] {
      var e, tail := es[0], es[1..];
      assert e in es;
      assert forall x :: x in tail ==> x in es;
      LinesRoundTrip(tail);
      if e.address != [] {
        assert Lines(es) == EntryLines(e) + Lines(tail);
        EntryLinesThen(e, Lines(tail));
        ParseOne(e.title, e.address, Lines(tail));
        assert Written(es) == [e] + Written(tail);
      } else {
        assert Lines(es) == Lines(tail);
        assert Written(es) == Written(tail);
      }
    }
  }

  /** When every address is non-empty, every entry is written. */
  lemma {:induction false} WrittenAll(es: seq<Entry>)
    requires forall e :: e in es ==> e.address != []
    ensures Written(es) == es
    decreases |es|
  {
    if es != [] {
      assert es[0] in es;
      assert forall x :: x in es[1..] ==> x in es;
      WrittenAll(es[1..]);
    }
  }

  /** A title written verbatim across two lines does not read back. */
  lemma MultiLineTitleBreaksRoundTrip()
    ensures Parse(Render([Entry("a\nb", "u")])) != Some(Written([Entry("a\nb", "u")]))
  {
    var es := [Entry("a\nb", "u")];
    var s := EXTINF + "a\nb\nu\n";
    TwoLineTitleLines();
    TwoLineTitleUnreadable();
    Slices(HEADER, s);
    assert Parse(Render(es)) == ParseEntries(s);
  }

  lemma TwoLineTitleLines()
    ensures Lines([Entry("a\nb", "u")]) == EXTINF + "a\nb\nu\n"
  {
    var es := [Entry("a\nb", "u")];
    assert es[1..] == [];
  }

  /** After the title line `a` comes `b`, which is read as the address, and
      then `u`, which is not an `#EXTINF` line. */
  lemma TwoLineTitleUnreadable()
    ensures ParseEntries(EXTINF + "a\nb\nu\n") == None
  {
    var s := EXTINF + "a\nb\nu\n";
    Slices(EXTINF, "a\nb\nu\n");
    var r := s[|EXTINF|..];
    assert IndexOf(r, '\n') == 1;
    var r2 := r[2..];
    assert r2 == "b\nu\n";
    assert IndexOf(r2, '\n') == 1;
    assert r2[2..] == "u\n";
    assert !StartsWith("u\n", EXTINF);
  }
}
