/** Rendering of CPU and memory amounts as orchestrator resource
    quantities (utils.go): millicores as `<n>m`, bytes as whole
    mebibytes `<n>Mi`. */
module Quantities {
  import opened GoFmt

  datatype Option<T> = None | Some(value: T)

  const MEBIBYTE := 1048576
  const HALF_MEBIBYTE := 524288

  /** 2^53: every int64 of at most this magnitude converts to float64
      exactly, so the float division and math.Round in formatMemory
      compute exactly the integer rounding below. */
  const MAX_EXACT_BYTES := 0x20_0000_0000_0000

  /** Reads a quantity written as an integer followed by `suffix`. */
  function ReadQuantity(s: string, suffix: string): (q: Option<int>)
    ensures q.Some? ==> |s| > |suffix| && s[|s| - |suffix|..] == suffix
  {
    var n := |s| - |suffix|;
    if n >= 0 && s[n..] == suffix && IsInteger(s[..n]) then Some(IntegerValue(s[..n]))
    else None
  }

  /** A quantity as `%d` followed by a unit writes it: a canonical integer,
      then `suffix`. */
  predicate WellFormed(s: string, suffix: string) {
    |s| >= |suffix| && s[|s| - |suffix|..] == suffix && Canonical(s[..|s| - |suffix|])
  }

  /** Well-formed quantities with the same unit and value are the same string. */
  lemma WellFormedUnique(s: string, t: string, suffix: string)
    requires WellFormed(s, suffix) && WellFormed(t, suffix)
    requires ReadQuantity(s, suffix) == ReadQuantity(t, suffix)
    ensures s == t
  {
    var a, b := s[..|s| - |suffix|], t[..|t| - |suffix|];
    assert IntegerValue(a) == IntegerValue(b);
    DecimalRoundTrip(a);
    DecimalRoundTrip(b);
    assert s == a + suffix;
    assert t == b + suffix;
  }

  /** formatCPU: the millicore count in decimal, then `m`; no conversion and
      no check, so a negative count keeps its sign. */
  function FormatCPU(millicores: Int64): (r: string)
    ensures WellFormed(r, "m") && ReadQuantity(r, "m") == Some(millicores as int)
    ensures r[0] == '-' <==> millicores < 0
  {
    var r := IntToDecimal(millicores) + "m";
    assert r[..|r| - 1] == IntToDecimal(millicores);
    r
  }

  /** `m` is `bytes / MEBIBYTE` rounded to the nearest integer, halves
      rounded away from zero (Go's math.Round). */
  ghost predicate RoundsTo(bytes: int, m: int) {
    if bytes >= 0 then m * MEBIBYTE - HALF_MEBIBYTE <= bytes < m * MEBIBYTE + HALF_MEBIBYTE
    else m * MEBIBYTE - HALF_MEBIBYTE < bytes <= m * MEBIBYTE + HALF_MEBIBYTE
  }

  /** int64(math.Round(float64(bytes) / (1024 * 1024))) in integer arithmetic. */
  function MebibytesRounded(bytes: int): (m: int)
    ensures RoundsTo(bytes, m)
    ensures -HALF_MEBIBYTE <= m * MEBIBYTE - bytes <= HALF_MEBIBYTE
  {
    if bytes >= 0 then (bytes + HALF_MEBIBYTE) / MEBIBYTE
    else -((-bytes + HALF_MEBIBYTE) / MEBIBYTE)
  }

  /** formatMemory: the byte count in whole mebibytes, rounded half away
      from zero, then `Mi`. */
  function FormatMemory(bytes: Int64): (r: string)
    requires -MAX_EXACT_BYTES <= bytes <= MAX_EXACT_BYTES
    ensures WellFormed(r, "Mi") && ReadQuantity(r, "Mi") == Some(MebibytesRounded(bytes))
  {
    var r := IntToDecimal(MebibytesRounded(bytes)) + "Mi";
    assert r[..|r| - 2] == IntToDecimal(MebibytesRounded(bytes));
    r
  }

  /** Distinct millicore counts render as distinct quantities. */
  lemma FormatCPUInjective(a: Int64, b: Int64)
    requires FormatCPU(a) == FormatCPU(b)
    ensures a == b
  {
  }

  /** The rendering is `%d` of the count followed by `m`, and nothing else:
      any well-formed CPU quantity for the count is this string. */
  lemma FormatCPUIsDecimal(millicores: Int64, s: string)
    requires WellFormed(s, "m") && ReadQuantity(s, "m") == Some(millicores as int)
    ensures s == FormatCPU(millicores)
  {
    WellFormedUnique(s, FormatCPU(millicores), "m");
  }

  lemma FormatCPUExamples()
    ensures FormatCPU(250) == "250m"
    ensures FormatCPU(0) == "0m"
    ensures FormatCPU(-10) == "-10m"
  {
  }

  /** The rounding condition fixes the mebibyte count uniquely. */
  lemma RoundsToUnique(bytes: int, m: int)
    requires RoundsTo(bytes, m)
    ensures m == MebibytesRounded(bytes)
  {
  }

  /** Rounding commutes with negation: halves go away from zero on both sides. */
  lemma MebibytesRoundedOdd(bytes: int)
    ensures MebibytesRounded(-bytes) == -MebibytesRounded(bytes)
  {
  }

  /** More bytes never give fewer mebibytes. */
  lemma MebibytesRoundedMonotone(b1: int, b2: int)
    requires b1 <= b2
    ensures MebibytesRounded(b1) <= MebibytesRounded(b2)
  {
  }

  /** A whole number of mebibytes is rendered as that number. */
  lemma FormatMemoryExactMultiple(k: int)
    requires -MAX_EXACT_BYTES <= k * MEBIBYTE <= MAX_EXACT_BYTES
    ensures FormatMemory(k * MEBIBYTE) == IntToDecimal(k) + "Mi"
  {
    RoundsToUnique(k * MEBIBYTE, k);
  }

  /** The rendering is `%d` of the rounded count followed by `Mi`, and
      nothing else. */
  lemma FormatMemoryIsDecimal(bytes: Int64, s: string)
    requires -MAX_EXACT_BYTES <= bytes <= MAX_EXACT_BYTES
    requires WellFormed(s, "Mi") && ReadQuantity(s, "Mi") == Some(MebibytesRounded(bytes))
    ensures s == FormatMemory(bytes)
  {
    WellFormedUnique(s, FormatMemory(bytes), "Mi");
  }

  lemma FormatMemoryExamples()
    ensures FormatMemory(0) == "0Mi"
    ensures FormatMemory(1048576) == "1Mi"
    ensures FormatMemory(524288) == "1Mi"
    ensures FormatMemory(1572864) == "2Mi"
    ensures FormatMemory(-524288) == "-1Mi"
  {
  }
}
