/** Address and title rules shared by the staging step and the secondary normaliser. */
module Resolver {
  import opened Text
  import opened Streams

  /** Title of the root entries the GUI drops while staging. */
  const SKIP_TITLE: string := "卫视直播"
  /** Title used when the staging title is empty. */
  const UNNAMED: string := "未命名"

  /** A secondary address that is used as it is. */
  predicate Absolute(v: Variant, a: string) {
    StartsWith(a, "http") || (v == GuiRules && StartsWith(a, "rtmp"))
  }

  /** The address of a secondary entry (or of a non-JSON body). */
  function Resolve(v: Variant, prefix: string, a: string): string {
    if Absolute(v, a) then a else prefix + a
  }

  /** The address of a staging entry. */
  function StagingAddress(v: Variant, prefix: string, a: string): string {
    if v == GuiRules && StartsWith(a, "rtmp") then a else prefix + a
  }

  /** `item['title'] or '未命名'` */
  function FallbackTitle(t: string): (r: string)
    ensures r != []
  {
    if t == [] then UNNAMED else t
  }

  lemma RtmpIsNotHttp(a: string)
    requires StartsWith(a, "rtmp")
    ensures !StartsWith(a, "http")
  {
    assert a[0] == 'r';
  }

  /** The GUI resolver leaves an address alone exactly when it starts with `http` or `rtmp`. */
  lemma GuiResolveIff(prefix: string, a: string)
    requires prefix != []
    ensures Resolve(GuiRules, prefix, a) == a <==> (StartsWith(a, "http") || StartsWith(a, "rtmp"))
    ensures !(StartsWith(a, "http") || StartsWith(a, "rtmp")) ==> Resolve(GuiRules, prefix, a) == prefix + a
  {
    assert |prefix + a| > |a|;
  }

  /** The script resolver exempts only `http`; an `rtmp` address is prefixed. */
  lemma ScriptResolveIff(prefix: string, a: string)
    requires prefix != []
    ensures Resolve(ScriptRules, prefix, a) == a <==> StartsWith(a, "http")
    ensures StartsWith(a, "rtmp") ==> Resolve(ScriptRules, prefix, a) == prefix + a
  {
    assert |prefix + a| > |a|;
    if StartsWith(a, "rtmp") { RtmpIsNotHttp(a); }
  }

  /** The two resolvers disagree on exactly the `rtmp` addresses. */
  lemma ResolversDifferOnRtmp(prefix: string, a: string)
    requires prefix != []
    ensures Resolve(GuiRules, prefix, a) != Resolve(ScriptRules, prefix, a) <==> StartsWith(a, "rtmp")
  {
    assert |prefix + a| > |a|;
    if StartsWith(a, "rtmp") { RtmpIsNotHttp(a); }
  }

  /** Resolving a non-empty address never yields the empty address. */
  lemma ResolveNonEmpty(v: Variant, prefix: string, a: string)
    requires a != []
    ensures Resolve(v, prefix, a) != []
    ensures Resolve(v, prefix, a) == a || Resolve(v, prefix, a) == prefix + a
  {
  }

  /** GUI staging keeps exactly the `rtmp` addresses, and prefixes every other one, `http` included. */
  lemma GuiStagingAddressIff(prefix: string, a: string)
    requires prefix != []
    ensures StagingAddress(GuiRules, prefix, a) == a <==> StartsWith(a, "rtmp")
    ensures StartsWith(a, "http") ==> StagingAddress(GuiRules, prefix, a) == prefix + a
  {
    assert |prefix + a| > |a|;
    if StartsWith(a, "http") {
      assert a[0] == 'h';
    }
  }

  /** Script staging prefixes every address. */
  lemma ScriptStagingAlwaysPrefixes(prefix: string, a: string)
    ensures StagingAddress(ScriptRules, prefix, a) == prefix + a
  {
  }
}
