/** Substring tests that keep moving or malformed answers out of the cache. */
module CacheRules {
  import opened Text
  import RpcMethod

  const LATEST := "latest"
  const EARLIEST := "earliest"
  const SAFE := "safe"
  const FINALIZED := "finalized"
  const PENDING := "pending"

  const TAGS: seq<string> := [LATEST, EARLIEST, SAFE, FINALIZED, PENDING]

  const METHOD_BLACKLIST: seq<string> :=
    [RpcMethod.BLOCK_NUMBER, RpcMethod.GET_TRANSACTION_COUNT, RpcMethod.SUBSCRIBE, RpcMethod.UNSUBSCRIBE]

  const RESULT_BLACKLIST: seq<string> := ["error", "-32", "null"]

  predicate ContainsAny(text: string, words: seq<string>) {
    exists w :: w in words && Contains(text, w)
  }

  predicate HasBlockTag(rx: string) {
    ContainsAny(rx, TAGS)
  }

  predicate CacheMethod(rx: string) {
    !HasBlockTag(rx) && !ContainsAny(rx, METHOD_BLACKLIST)
  }

  predicate CacheResult(rx: string) {
    !ContainsAny(rx, RESULT_BLACKLIST)
  }

  predicate CanCache(request: string, rx: string) {
    CacheMethod(request) && CacheResult(rx)
  }

  lemma MethodsAreNames()
    ensures forall name :: name in METHOD_BLACKLIST ==> IsName(name) && |name| > 8
  {
  }

  lemma TagsAreNames()
    ensures forall tag :: tag in TAGS ==> IsName(tag) && |tag| >= 4 && tag != "null"
  {
  }

  lemma TagsAreNoQuantities()
    ensures forall tag :: tag in TAGS ==> exists i :: 0 <= i < |tag| && !IsQuantityChar(tag[i])
  {
    assert !IsQuantityChar(LATEST[0]) && !IsQuantityChar(EARLIEST[3]) && !IsQuantityChar(SAFE[0])
      && !IsQuantityChar(FINALIZED[1]) && !IsQuantityChar(PENDING[0]);
  }

  /** The words that keep a request or an answer out of the cache, and no others. */
  lemma GatesAreExact(text: string)
    ensures HasBlockTag(text) <==>
            || Contains(text, "latest") || Contains(text, "earliest") || Contains(text, "safe")
            || Contains(text, "finalized") || Contains(text, "pending")
    ensures CacheMethod(text) <==>
            && !HasBlockTag(text)
            && !Contains(text, "eth_blockNumber") && !Contains(text, "eth_getTransactionCount")
            && !Contains(text, "eth_subscribe") && !Contains(text, "eth_unsubscribe")
    ensures CacheResult(text) <==> !Contains(text, "error") && !Contains(text, "-32") && !Contains(text, "null")
  {
    hide Contains;
    assert forall t :: t in TAGS <==> t in {"latest", "earliest", "safe", "finalized", "pending"};
    assert forall m :: m in METHOD_BLACKLIST <==>
      m in {"eth_blockNumber", "eth_getTransactionCount", "eth_subscribe", "eth_unsubscribe"};
    assert forall w :: w in RESULT_BLACKLIST <==> w in {"error", "-32", "null"};
  }
}
