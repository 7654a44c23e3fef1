/** The size column of the archive table: a byte count scaled down by 1024
    until it is at most 1024, with the unit named after the number of steps. */
module ArchiveTables {
  import opened Wrappers

  /** `2**10`. */
  const Power: real := 1024.0

  /** `x` multiplied by 1024, `n` times over: `x * 1024**n`. */
  function ScaleUp(x: real, n: nat): real
    decreases n
  {
    if n == 0 then x else ScaleUp(Power * x, n - 1)
  }

  /** Scaling up preserves the order of the values scaled. */
  lemma {:induction false} ScaleUpMonotone(x: real, y: real, n: nat)
    ensures x < y ==> ScaleUp(x, n) < ScaleUp(y, n)
    ensures x <= y ==> ScaleUp(x, n) <= ScaleUp(y, n)
    decreases n
  {
    if n > 0 {
      ScaleUpMonotone(Power * x, Power * y, n - 1);
    }
  }

  /** More steps give a larger power of 1024. */
  lemma {:induction false} PowersIncrease(m: nat, n: nat)
    requires m <= n
    ensures ScaleUp(1.0, m) <= ScaleUp(1.0, n)
    decreases n
  {
    if m < n {
      PowersIncrease(m, n - 1);
      OnePowerMore(n - 1);
    }
  }

  /** `1024**(n+1)` is `1024 * 1024**n`, and at least `1024**n`. */
  lemma {:induction false} OnePowerMore(n: nat)
    ensures ScaleUp(1.0, n + 1) == ScaleUp(Power, n)
    ensures ScaleUp(1.0, n) < ScaleUp(1.0, n + 1)
    decreases n
  {
    ScaleUpMonotone(1.0, Power, n);
  }

  /** `power_labels[n]`: the prefixes for up to four steps, and the `KeyError`
      of the lookup beyond that. */
  function PowerLabel(n: nat): (prefix: Option<string>)
    ensures prefix.Some? <==> n <= 4
  {
    if n == 0 then Some("")
    else if n == 1 then Some("kilo")
    else if n == 2 then Some("mega")
    else if n == 3 then Some("giga")
    else if n == 4 then Some("tera")
    else None
  }

  /** One pass of the loop keeps the size equal to the scaled value times the
      power reached, and makes progress. */
  lemma DivideStep(scaled: real, next: real, n: nat, size: real)
    requires scaled > Power && ScaleUp(scaled, n) == size && next == scaled / Power
    ensures ScaleUp(next, n + 1) == size
    ensures 1.0 < next && size > ScaleUp(1.0, n + 1)
    ensures next.Floor < scaled.Floor
  {
    assert Power * next == scaled;
    OnePowerMore(n);
    ScaleUpMonotone(Power, scaled, n);
  }

  /** What the loop's exit leaves: the size lies between the power of 1024
      reached and the next one. */
  lemma ExitBounds(scaled: real, n: nat, size: real)
    requires scaled <= Power && ScaleUp(scaled, n) == size
    requires n == 0 ==> scaled == size
    requires n > 0 ==> 1.0 < scaled
    ensures n == 0 <==> size <= Power
    ensures n > 0 ==> ScaleUp(1.0, n) < size <= ScaleUp(1.0, n + 1)
  {
    OnePowerMore(n);
    ScaleUpMonotone(scaled, Power, n);
    ScaleUpMonotone(1.0, scaled, n);
    if n > 0 {
      PowersIncrease(1, n);
      assert ScaleUp(1.0, 1) == Power;
    }
  }

  /** `format_bytes(size)`: returns the scaled size, the number `n` of
      divisions by 1024 and the unit `power_labels[n] + "bytes"`, or `None`
      where the label lookup raises. The size is divided only while it is
      strictly greater than 1024. */
  method FormatBytes(size: real) returns (scaled: real, n: nat, unit: Option<string>)
    ensures scaled <= Power
    ensures ScaleUp(scaled, n) == size
    ensures n == 0 <==> size <= Power
    ensures n == 0 ==> scaled == size
    ensures n > 0 ==> 1.0 < scaled && ScaleUp(1.0, n) < size <= ScaleUp(1.0, n + 1)
    ensures unit == (if n <= 4 then Some(PowerLabel(n).value + "bytes") else None)
  {
    scaled, n := size, 0;
    while scaled > Power
      invariant ScaleUp(scaled, n) == size
      invariant n == 0 ==> scaled == size
      invariant n > 0 ==> 1.0 < scaled
      decreases scaled.Floor
    {
      var next := scaled / Power;
      DivideStep(scaled, next, n, size);
      scaled, n := next, n + 1;
    }
    ExitBounds(scaled, n, size);
    match PowerLabel(n)
    case None =>
      unit := None;
    case Some(prefix) =>
      unit := Some(prefix + "bytes");
  }

  /** A name for the unit exists exactly for sizes up to 1024 to the fifth
      power; exactly 1024 stays in bytes. */
  lemma UnitDefinedUpTo(size: real, scaled: real, n: nat)
    requires scaled <= Power && ScaleUp(scaled, n) == size
    requires n == 0 <==> size <= Power
    requires n > 0 ==> 1.0 < scaled && ScaleUp(1.0, n) < size <= ScaleUp(1.0, n + 1)
    ensures PowerLabel(n).Some? <==> size <= ScaleUp(1.0, 5)
    ensures size == Power ==> n == 0
  {
    if n <= 4 {
      if n > 0 {
        PowersIncrease(n + 1, 5);
      } else {
        assert ScaleUp(1.0, 1) == Power;
        PowersIncrease(1, 5);
      }
    } else {
      PowersIncrease(5, n);
    }
  }
}
