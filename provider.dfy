/** src/utils/provider.ts: one JSON-RPC provider per supported chain, created once when the
    module loads, and the chain-id switch that hands them out. */
module Provider {
  import opened Wrappers
  import opened Text
  import opened Errors

  /** The two module-level provider handles. */
  datatype Provider = BaseSepoliaProvider | PolygonAmoyProvider

  const BaseSepoliaChainId: int := 84532
  const PolygonAmoyChainId: int := 80002

  /** `getRpcProvider(chainId)`: the handle for a supported chain, `APIError` otherwise. */
  function GetRpcProvider(chainId: int): (r: Result<Provider, Error>)
    ensures r == Ok(BaseSepoliaProvider) <==> chainId == BaseSepoliaChainId
    ensures r == Ok(PolygonAmoyProvider) <==> chainId == PolygonAmoyChainId
    ensures r.Err? <==> chainId != BaseSepoliaChainId && chainId != PolygonAmoyChainId
    ensures r.Err? ==> r.error.cls == APIError && r.error.message == Some("unsupported chainId " + IntToString(chainId))
  {
    if chainId == BaseSepoliaChainId then Ok(BaseSepoliaProvider)
    else if chainId == PolygonAmoyChainId then Ok(PolygonAmoyProvider)
    else Err(Raise(APIError, "unsupported chainId " + IntToString(chainId), NoDetails))
  }

  /** A handle identifies its chain, and the two handles differ. */
  lemma HandleDeterminesChain(a: int, b: int)
    requires GetRpcProvider(a).Ok? && GetRpcProvider(a) == GetRpcProvider(b)
    ensures a == b
  {
  }

  /** The configuration error names the rejected chain id: two different unsupported ids
      never produce the same message. */
  lemma UnsupportedMessageNamesChain(a: int, b: int)
    requires GetRpcProvider(a).Err? && GetRpcProvider(b).Err?
    requires GetRpcProvider(a).error == GetRpcProvider(b).error
    ensures a == b
  {
    var p := "unsupported chainId ";
    assert (p + IntToString(a))[|p|..] == IntToString(a);
    assert (p + IntToString(b))[|p|..] == IntToString(b);
    IntToStringInjective(a, b);
  }
}
