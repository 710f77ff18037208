/**
 A way to keep a statement out of sight of the verifier until it is needed.
 */
module Curtains {

  /** What is stated for every `k` under `Opened(k)` comes into play only where that is mentioned. */
  predicate Opened(k: nat) { k >= 0 }
}
