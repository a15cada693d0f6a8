/** Instants and durations are integers in nanoseconds, as in Go's time package. */
module Clock {
  import opened Arithmetic

  const MILLISECOND := 1_000_000
  const SECOND := 1_000_000_000
  const MINUTE := 60 * SECOND
  const HOUR := 60 * MINUTE
  const DAY := 24 * HOUR

  // How long a user, user+client or client watermark row is kept.
  const REVOCATION_RETENTION := 7 * DAY
  // Cap on access-token lifetimes.
  const MAX_ACCESS_TTL := 24 * HOUR

  /** t rounded down to a multiple of unit: a UUIDv7 keeps the issue time to the
      millisecond, the iat and exp claims keep whole seconds. */
  function FloorTo(t: int, unit: int): (r: int)
    requires unit > 0
    ensures r <= t < r + unit
  {
    t - t % unit
  }

  /** Comparing a rounded issue time with a cut catches exactly the tokens issued
      no later than the rounding unit in which the cut falls. */
  lemma RoundedComparison(issued: int, cut: int, unit: int)
    requires unit > 0
    ensures FloorTo(issued, unit) <= cut <==> issued < FloorTo(cut, unit) + unit
  {
    var qi, qc := issued / unit, cut / unit;
    assert FloorTo(issued, unit) == unit * qi && FloorTo(cut, unit) == unit * qc;
    if qi > qc {
      MultiplesApart(unit, qi, qc);
    } else if qi < qc {
      MultiplesApart(unit, qc, qi);
    }
  }
}
