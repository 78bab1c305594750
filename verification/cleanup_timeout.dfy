/** getCleanupTimeout of the ByoHost controller, with Go's int64 wrap-around. */
module CleanupTimeout {
  import opened ByoModel

  const MIN_TIMEOUT: int := 2 * MINUTE
  const DEFAULT_TIMEOUT: int := 5 * MINUTE
  const MAX_TIMEOUT: int := 15 * MINUTE

  const TWO64: int := 0x1_0000_0000_0000_0000
  const MAX64: int := 0x7FFF_FFFF_FFFF_FFFF
  const GIB: int := 0x4000_0000
  const NANO: int := 1_000_000_000

  /** The int64 value that x becomes. */
  function Wrap(x: int): (r: int)
    ensures -MAX64 - 1 <= r <= MAX64
    ensures -MAX64 - 1 <= x <= MAX64 ==> r == x
  {
    (x + MAX64 + 1) % TWO64 - MAX64 - 1
  }

  /** A resource quantity in nano-units; parsing caps it at 2^63 - 1 whole units. */
  type Quantity = q: int | -MAX64 * NANO <= q <= MAX64 * NANO

  /** Quantity.Value for a positive quantity: rounded up to whole units. */
  function Units(q: Quantity): (u: int)
    requires q > 0
    ensures 0 < u <= MAX64
    ensures (u - 1) * NANO < q <= u * NANO
  {
    (q + NANO - 1) / NANO
  }

  /** CPUs beyond eight, a fraction counting as a whole CPU. */
  function ExtraCpus(cpu: Option<Quantity>): (e: int)
    ensures 0 <= e <= MAX64
  {
    if cpu.Some? && cpu.value > 8 * NANO then Units(cpu.value) - 8 else 0
  }

  /** Whole 8 GiB blocks beyond sixteen GiB. */
  function ExtraBlocks(memory: Option<Quantity>): (m: int)
    ensures 0 <= m <= MAX64
  {
    if memory.Some? && memory.value > 16 * GIB * NANO
    then (Units(memory.value) - 16 * GIB) / (8 * GIB) else 0
  }

  predicate Accepted(override: Option<int>) {
    override.Some? && MIN_TIMEOUT <= override.value <= MAX_TIMEOUT
  }

  function Clamp(t: int): int {
    if t < MIN_TIMEOUT then MIN_TIMEOUT else if t > MAX_TIMEOUT then MAX_TIMEOUT else t
  }

  /** The unbounded sum that the code accumulates in an int64. */
  function Ideal(e: int, m: int): int {
    DEFAULT_TIMEOUT + e * (30 * SECOND) + m * MINUTE
  }

  /** The timeout, as a wrapped ideal sum. The override is the parsed environment value, absent
      when the variable is unset or does not parse. */
  function Timeout(override: Option<int>, cpu: Option<Quantity>, memory: Option<Quantity>): (t: int)
    ensures MIN_TIMEOUT <= t <= MAX_TIMEOUT
  {
    if Accepted(override) then override.value
    else Clamp(Wrap(Ideal(ExtraCpus(cpu), ExtraBlocks(memory))))
  }

  lemma WrapShift(x: int, k: int)
    ensures Wrap(x + k * TWO64) == Wrap(x)
  {
    var y := x + MAX64 + 1;
    assert y + k * TWO64 == (y / TWO64 + k) * TWO64 + y % TWO64;
    ModUnique(y + k * TWO64, y / TWO64 + k, y % TWO64);
  }

  lemma ModUnique(x: int, q: int, r: int)
    requires x == q * TWO64 + r && 0 <= r < TWO64
    ensures x % TWO64 == r
  {
    var d := x / TWO64;
    assert x == d * TWO64 + x % TWO64;
    assert (d - q) * TWO64 == r - x % TWO64;
  }

  /** Wrapping an operand first does not change a wrapped sum of multiples. */
  lemma WrapAbsorbs(a: int, b: int, c: int)
    ensures Wrap(a + Wrap(b) * c) == Wrap(a + b * c)
  {
    var k := (b + MAX64 + 1) / TWO64;
    assert Wrap(b) == b - k * TWO64;
    assert a + Wrap(b) * c == a + b * c + (-k * c) * TWO64;
    WrapShift(a + b * c, -k * c);
  }

  /** One surcharge of n units, each multiplication and the addition wrapping on its own. */
  lemma Surcharge(t: int, n: int, c: int)
    ensures Wrap(Wrap(t) + Wrap(Wrap(n) * c)) == Wrap(t + n * c)
  {
    WrapAbsorbs(0, n, c);
    WrapAbsorbs(Wrap(t), n * c, 1);
    WrapAbsorbs(n * c, t, 1);
  }

  /** The code's accumulation of the CPU and memory surcharges and its final clamp. */
  method GetCleanupTimeout(override: Option<int>, cpu: Option<Quantity>, memory: Option<Quantity>)
    returns (timeout: int)
    ensures timeout == Timeout(override, cpu, memory)
    ensures MIN_TIMEOUT <= timeout <= MAX_TIMEOUT
  {
    if override.Some? {
      if override.value >= MIN_TIMEOUT && override.value <= MAX_TIMEOUT {
        return override.value;
      }
    }
    timeout := AddCpus(cpu);
    timeout := AddMemory(timeout, ExtraCpus(cpu), memory);
    if timeout < MIN_TIMEOUT {
      timeout := MIN_TIMEOUT;
    }
    if timeout > MAX_TIMEOUT {
      timeout := MAX_TIMEOUT;
    }
  }

  /** The default and the surcharge for CPUs. */
  method AddCpus(cpu: Option<Quantity>) returns (timeout: int)
    ensures timeout == Wrap(Ideal(ExtraCpus(cpu), 0))
  {
    timeout := DEFAULT_TIMEOUT;
    if cpu.Some? && cpu.value > 8 * NANO {
      var extraCpus := Units(cpu.value) - 8;
      Surcharge(timeout, extraCpus * 30, SECOND);
      timeout := Wrap(timeout + Wrap(Wrap(extraCpus * 30) * SECOND));
    }
  }

  /** The surcharge for memory. */
  method AddMemory(before: int, ghost e: int, memory: Option<Quantity>) returns (timeout: int)
    requires before == Wrap(Ideal(e, 0))
    ensures timeout == Wrap(Ideal(e, ExtraBlocks(memory)))
  {
    timeout := before;
    if memory.Some? && memory.value > 16 * GIB * NANO {
      var extraMemory := (Units(memory.value) - 16 * GIB) / (8 * GIB);
      Surcharge(Ideal(e, 0), extraMemory, MINUTE);
      timeout := Wrap(timeout + Wrap(extraMemory * MINUTE));
    }
  }

  /** The largest ExtraCpus + 2 * ExtraBlocks for which the int64 sum does not overflow. */
  const CAPACITY_LIMIT: int := 307_445_724

  /** The sum is exact precisely up to the capacity limit. */
  lemma OverflowExactly(e: int, m: int)
    requires 0 <= e && 0 <= m
    ensures Wrap(Ideal(e, m)) == Ideal(e, m) <==> e + 2 * m <= CAPACITY_LIMIT
  {
    assert Ideal(e, m) == (10 + e + 2 * m) * (30 * SECOND);
    if e + 2 * m > CAPACITY_LIMIT {
      assert Ideal(e, m) > MAX64;
    }
  }

  /** CPUs are counted beyond eight, and a fraction as a whole one: the least number that, with eight, is
      enough. */
  lemma ExtraCpusExactly(cpu: Quantity, e: nat)
    ensures ExtraCpus(Some(cpu)) == e <==> cpu <= (8 + e) * NANO && (e > 0 ==> (8 + e - 1) * NANO < cpu)
    ensures ExtraCpus(None) == 0
  {
  }

  /** Memory is counted in whole blocks of 8 GiB beyond 16 GiB: the largest number of blocks that, with 16
      GiB, the bytes reach, a fraction of a byte counting as one. */
  lemma ExtraBlocksExactly(memory: Quantity, m: nat)
    requires memory > 0
    ensures ExtraBlocks(Some(memory)) == m <==>
              && (m > 0 ==> (16 + 8 * m) * GIB <= Units(memory)) && Units(memory) < (16 + 8 * (m + 1)) * GIB
    ensures ExtraBlocks(None) == 0
  {
    var u := Units(memory);
    if memory > 16 * GIB * NANO {
      var n := (u - 16 * GIB) / (8 * GIB);
      assert n * (8 * GIB) <= u - 16 * GIB < (n + 1) * (8 * GIB);
      if n < m {
        assert (n + 1) * (8 * GIB) <= m * (8 * GIB);
      } else if m < n {
        assert (m + 1) * (8 * GIB) <= n * (8 * GIB);
      }
    } else {
      assert u <= 16 * GIB;
    }
  }

  /** An override between two and fifteen minutes is taken as it is, and any other is ignored. */
  lemma OverrideExactly(override: int, cpu: Option<Quantity>, memory: Option<Quantity>)
    ensures Timeout(Some(override), cpu, memory)
         == if 2 * MINUTE <= override <= 15 * MINUTE then override else Timeout(None, cpu, memory)
  {
  }

  /** Within the limit the timeout is five minutes plus the surcharges, capped at fifteen. */
  lemma TimeoutClosedForm(override: Option<int>, cpu: Option<Quantity>, memory: Option<Quantity>)
    requires !Accepted(override)
    requires ExtraCpus(cpu) + 2 * ExtraBlocks(memory) <= CAPACITY_LIMIT
    ensures var ideal := 5 * MINUTE + ExtraCpus(cpu) * (30 * SECOND) + ExtraBlocks(memory) * MINUTE;
            Timeout(override, cpu, memory) == if ideal < 15 * MINUTE then ideal else 15 * MINUTE
    ensures Timeout(override, cpu, memory) >= 5 * MINUTE
  {
    OverflowExactly(ExtraCpus(cpu), ExtraBlocks(memory));
  }

  /** A host at least as large in both resources never gets a shorter timeout, within the limit. */
  lemma TimeoutMonotone(cpu: Quantity, cpu': Quantity, memory: Quantity, memory': Quantity)
    requires cpu <= cpu' && memory <= memory'
    requires ExtraCpus(Some(cpu')) + 2 * ExtraBlocks(Some(memory')) <= CAPACITY_LIMIT
    ensures Timeout(None, Some(cpu), Some(memory)) <= Timeout(None, Some(cpu'), Some(memory'))
  {
    assert ExtraCpus(Some(cpu)) <= ExtraCpus(Some(cpu'));
    assert ExtraBlocks(Some(memory)) <= ExtraBlocks(Some(memory'));
    TimeoutClosedForm(None, Some(cpu), Some(memory));
    TimeoutClosedForm(None, Some(cpu'), Some(memory'));
  }

  /** One step past the limit the sum turns negative and the largest hosts get the shortest wait. */
  lemma OverflowShortensTimeout(cpu: Quantity, memory: Quantity)
    requires ExtraCpus(Some(cpu)) + 2 * ExtraBlocks(Some(memory)) == CAPACITY_LIMIT + 1
    ensures Timeout(None, Some(cpu), Some(memory)) == MIN_TIMEOUT
  {
    var e, m := ExtraCpus(Some(cpu)), ExtraBlocks(Some(memory));
    assert Ideal(e, m) == 307_445_735 * (30 * SECOND);
  }
}
