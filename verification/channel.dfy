/**
  The name of the input a store's changes are sent on: the fixed prefix
  `sherpa_update_` followed by the store id, and its decoding on the server side.
 */
module Channel {
  import opened Results

  const Prefix: string := "sherpa_update_"

  /** The input name `sherpa_update_<storeId>`. */
  function Name(storeId: string): (ch: string)
    ensures |ch| == |Prefix| + |storeId|
    ensures ch[..|Prefix|] == Prefix
    ensures ch[|Prefix|..] == storeId
  {
    Prefix + storeId
  }

  /** The store id a channel name belongs to, if it is a store channel at all. */
  function StoreOf(ch: string): (r: Option<string>)
    ensures r.Some? <==> |Prefix| <= |ch| && ch[..|Prefix|] == Prefix
    ensures r.Some? ==> Name(r.value) == ch
  {
    if |Prefix| <= |ch| && ch[..|Prefix|] == Prefix then
      assert Prefix + ch[|Prefix|..] == ch;
      Some(ch[|Prefix|..])
    else None
  }

  /** Every store's channel decodes back to that store. */
  lemma NameRoundTrip(storeId: string)
    ensures StoreOf(Name(storeId)) == Some(storeId)
  {
  }

  /** Distinct stores never share a channel. */
  lemma NameInjective(a: string, b: string)
    ensures Name(a) == Name(b) <==> a == b
  {
  }
}
