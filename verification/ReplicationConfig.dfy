/** The replication settings of internal/replication/config.go. */
module ReplicationConfig {
  import opened Commons

  /** The consistency levels are strings, as they arrive from the environment. */
  datatype Config = Config(
    replicationFactor: int, writeQuorum: int, readQuorum: int, writeConsistency: string, readConsistency: string)

  datatype Error = BadFactor | BadWriteQuorum | BadReadQuorum | BadWriteConsistency | BadReadConsistency

  const WRITE_ONE := "one"
  const WRITE_QUORUM := "quorum"
  const WRITE_ALL := "all"
  const READ_PRIMARY := "primary"
  const READ_QUORUM := "quorum"
  const READ_ANY := "any"

  function Validate(c: Config): Option<Error> {
    if c.replicationFactor < 1 then Some(BadFactor)
    else if c.replicationFactor == 1 then None
    else if c.writeQuorum < 1 || c.writeQuorum > c.replicationFactor then Some(BadWriteQuorum)
    else if c.readQuorum < 1 || c.readQuorum > c.replicationFactor then Some(BadReadQuorum)
    else if c.writeConsistency !in [WRITE_ONE, WRITE_QUORUM, WRITE_ALL] then Some(BadWriteConsistency)
    else if c.readConsistency !in [READ_PRIMARY, READ_QUORUM, READ_ANY] then Some(BadReadConsistency)
    else None
  }

  predicate Enabled(c: Config) {
    c.replicationFactor > 1
  }

  function Normalize(c: Config): Config {
    if c.replicationFactor <= 1 then c.(replicationFactor := 1)
    else
      var quorum := c.replicationFactor / 2 + 1;
      c.(writeQuorum := if c.writeQuorum <= 0 then quorum else c.writeQuorum,
         readQuorum := if c.readQuorum <= 0 then quorum else c.readQuorum,
         writeConsistency := if c.writeConsistency == "" then WRITE_QUORUM else c.writeConsistency,
         readConsistency := if c.readConsistency == "" then READ_QUORUM else c.readConsistency)
  }

  function RequiredWriteAcks(c: Config): int {
    if c.writeConsistency == WRITE_ONE then 0
    else if c.writeConsistency == WRITE_ALL then c.replicationFactor - 1
    else c.writeQuorum - 1
  }

  /** How many nodes hold a write once it is acknowledged. */
  function WriteCount(c: Config): int {
    if Enabled(c) then RequiredWriteAcks(c) + 1 else 1
  }

  /** Normalizing repairs everything but quorums above the factor and unknown level names. */
  lemma NormalizedIsValidIff(c: Config)
    ensures Validate(Normalize(c)).None? <==>
      || c.replicationFactor <= 1
      || (&& c.writeQuorum <= c.replicationFactor && c.readQuorum <= c.replicationFactor
          && c.writeConsistency in ["", WRITE_ONE, WRITE_QUORUM, WRITE_ALL]
          && c.readConsistency in ["", READ_PRIMARY, READ_QUORUM, READ_ANY])
  {
    assert c.replicationFactor > 1 ==> 1 <= c.replicationFactor / 2 + 1 <= c.replicationFactor;
  }

  /** With the default quorums reads and writes overlap, unless a write waits for the primary alone
      and there are more than two replicas. */
  lemma DefaultsOverlapIff(c: Config)
    requires c.replicationFactor > 1 && c.writeQuorum <= 0 && c.readQuorum <= 0
    ensures Normalize(c).writeQuorum + Normalize(c).readQuorum > c.replicationFactor
    ensures c.replicationFactor - WriteCount(Normalize(c)) < Normalize(c).readQuorum
       <==> c.writeConsistency != WRITE_ONE || c.replicationFactor == 2
  {
    var n := c.replicationFactor;
    assert 2 * (n / 2) <= n <= 2 * (n / 2) + 1;
  }

  /** What normalizing fills in: the smallest majority for a quorum that is not given, and level quorum for a
      level that is not named; what is given stays. */
  lemma NormalizedDefaults(c: Config)
    requires c.replicationFactor > 1
    ensures var n, f := Normalize(c), c.replicationFactor;
      && n.replicationFactor == f
      && (if c.writeQuorum > 0 then n.writeQuorum == c.writeQuorum else 2 * n.writeQuorum - 2 <= f < 2 * n.writeQuorum)
      && (if c.readQuorum > 0 then n.readQuorum == c.readQuorum else 2 * n.readQuorum - 2 <= f < 2 * n.readQuorum)
      && n.writeConsistency == (if c.writeConsistency == "" then "quorum" else c.writeConsistency)
      && n.readConsistency == (if c.readConsistency == "" then "quorum" else c.readConsistency)
  {
    var f := c.replicationFactor;
    assert 2 * (f / 2) <= f <= 2 * (f / 2) + 1;
  }

  /** Which fault is reported: the first of an excessive write quorum, an excessive read quorum, an unknown write
      level and an unknown read level. */
  lemma NormalizedError(c: Config)
    requires c.replicationFactor > 1
    ensures Validate(Normalize(c)) ==
      if c.writeQuorum > c.replicationFactor then Some(BadWriteQuorum)
      else if c.readQuorum > c.replicationFactor then Some(BadReadQuorum)
      else if c.writeConsistency !in ["", "one", "quorum", "all"] then Some(BadWriteConsistency)
      else if c.readConsistency !in ["", "primary", "quorum", "any"] then Some(BadReadConsistency)
      else None
  {
    assert 1 <= c.replicationFactor / 2 + 1 <= c.replicationFactor;
  }
}
