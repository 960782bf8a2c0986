/** Values shared by the operator side and the node side of generation renewal. */
module Fleet {
  /** The signed routing policy that a renewal must carry over unchanged. */
  datatype Policy = Policy(networkId: string, protocolVersion: int, routeAttempts: int,
                           replicationFactor: int, minimumReplicas: int, timeout: real)

  /** A signed public bundle.  browser-wan.json commits to the other three files by hash, so one
      value stands for all four; `nonce` is whatever else the signed bytes contain. */
  datatype Config = Config(generation: int, issuedAt: int, expiresAt: int,
                           peers: set<string>, policy: Policy, nonce: seq<int>)

  /** SHA-256, injective by construction. */
  datatype Digest = Sha256(content: Config)

  /** A deploy request as it reaches a node.  `intact` says that the four members decode, respect
      the size bounds, carry the pinned authorities and verify as a signed config. */
  datatype Request = Request(generation: int, digest: Digest, files: Config, intact: bool)

  const MAX_CLOCK_SKEW := 120

  /** Signed configs are loadable between their (skewed) issue time and their expiry. */
  predicate CurrentlyValid(c: Config, now: int) {
    c.issuedAt <= now + MAX_CLOCK_SKEW && now < c.expiresAt
  }

  function DeployRequest(c: Config): Request {
    Request(c.generation, Sha256(c), c, true)
  }

  /** What renewal and publication both call "the same identity and policy". */
  predicate SameFleet(a: Config, b: Config) {
    a.peers == b.peers && a.policy == b.policy
  }
}
