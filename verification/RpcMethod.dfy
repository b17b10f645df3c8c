/** Which parameter of a method names the block it reads. */
module RpcMethod {
  import opened Wrappers

  const BLOCK_NUMBER := "eth_blockNumber"
  const GET_TRANSACTION_COUNT := "eth_getTransactionCount"
  const SUBSCRIBE := "eth_subscribe"
  const UNSUBSCRIBE := "eth_unsubscribe"

  /** `EthRpcMethod::get_position`; None for a method without a block parameter. */
  function GetPosition(name: Option<string>): (position: Option<nat>)
    ensures position.Some? ==> position.value <= 2
  {
    match name
    case None => None
    case Some(m) =>
      if m in {"eth_getBalance", GET_TRANSACTION_COUNT, "eth_getCode", "eth_call"} then Some(1)
      else if m == "eth_getStorageAt" then Some(2)
      else if m in {"eth_getBlockTransactionCountByNumber", "eth_getUncleCountByBlockNumber",
                    "eth_getBlockByNumber", "eth_getTransactionByBlockNumberAndIndex",
                    "eth_getUncleByBlockNumberAndIndex"} then Some(0)
      else None
  }
}
