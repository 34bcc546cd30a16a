/** The timing rules shared by the global defaults and every merged probe.  Durations are
    64-bit nanoseconds, so the product of packet interval and count can wrap around. */
module Timings {
  import opened Types

  const MILLISECOND: Int64 := 1_000_000

  datatype TimingError =
    | IntervalNotPositive | PacketIntervalTooShort | TimeoutNotPositive | CountNotPositive
    | PacketsExceedTimeout | TimeoutExceedsInterval

  function ValidateTimings(interval: Int64, packetInterval: Int64, timeout: Int64, count: Int64): Option<TimingError> {
    if interval <= 0 then Some(IntervalNotPositive)
    else if packetInterval < MILLISECOND then Some(PacketIntervalTooShort)
    else if timeout <= 0 then Some(TimeoutNotPositive)
    else if count <= 0 then Some(CountNotPositive)
    else if Product(packetInterval, count) >= timeout then Some(PacketsExceedTimeout)
    else if timeout >= interval then Some(TimeoutExceedsInterval)
    else None
  }

  /** `packetInterval * time.Duration(count)` in int64. */
  function Product(packetInterval: Int64, count: Int64): Int64 {
    var p: int, c: int := packetInterval, count;
    Wrap64(p * c)
  }

  /** The product over the integers. */
  function ExactProduct(packetInterval: int, count: int): int { packetInterval * count }

  /** What the rules are for: all packets fit the probe's time budget, and the probe is
      over before the next one is due. */
  ghost predicate FitsBudget(interval: int, packetInterval: int, timeout: int, count: int) {
    ExactProduct(packetInterval, count) < timeout < interval
  }

  /** Accepted means within every limit, the product being that of int64; and the reason for
      a refusal is true. */
  lemma {:induction false} TimingsMeaning(interval: Int64, packetInterval: Int64, timeout: Int64, count: Int64)
    ensures match ValidateTimings(interval, packetInterval, timeout, count)
            case None =>
              && interval > 0 && packetInterval >= 1_000_000 && timeout > 0 && count > 0
              && Product(packetInterval, count) < timeout < interval
            case Some(IntervalNotPositive) => interval <= 0
            case Some(PacketIntervalTooShort) => packetInterval < 1_000_000
            case Some(TimeoutNotPositive) => timeout <= 0
            case Some(CountNotPositive) => count <= 0
            case Some(PacketsExceedTimeout) => Product(packetInterval, count) >= timeout
            case Some(TimeoutExceedsInterval) => timeout >= interval
  {
  }

  lemma ProductGrows(p: int, c: int)
    requires p > 0 && c > 0
    ensures ExactProduct(p, c) >= p && ExactProduct(p, c) >= c
  {
  }

  /** Accepted timings fit the budget exactly when the product does not leave int64. */
  lemma {:induction false} BudgetIffNoWrap(interval: Int64, packetInterval: Int64, timeout: Int64, count: Int64)
    requires ValidateTimings(interval, packetInterval, timeout, count).None?
    ensures FitsBudget(interval, packetInterval, timeout, count) <==>
            ExactProduct(packetInterval, count) < TWO_63
  {
    ProductGrows(packetInterval, count);
  }

  /** Timings that fit the budget and its lower limits are accepted. */
  lemma {:induction false} FittingTimingsAccepted(interval: Int64, packetInterval: Int64, timeout: Int64, count: Int64)
    requires interval > 0 && packetInterval >= MILLISECOND && timeout > 0 && count > 0
    requires FitsBudget(interval, packetInterval, timeout, count)
    ensures ValidateTimings(interval, packetInterval, timeout, count).None?
  {
    ProductGrows(packetInterval, count);
  }

  lemma ProductMonotone(p: int, a: int, b: int)
    requires p > 0 && a <= b
    ensures ExactProduct(p, a) <= ExactProduct(p, b)
  {
  }

  /** Four packets 2^62 ns apart are accepted with a timeout of one nanosecond. */
  lemma WrappedBudgetAccepted()
    ensures ValidateTimings(2, 0x4000_0000_0000_0000, 1, 4).None?
    ensures !FitsBudget(2, 0x4000_0000_0000_0000, 1, 4)
  {
    assert Product(0x4000_0000_0000_0000, 4) == 0;
  }
}
