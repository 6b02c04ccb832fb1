/** The source port allocator of a core: a 16-bit counter advanced by the number of cores, folded
    into the range from 49160 to 65534. */
module Ports {
  const BASE_PORT := 49160
  const PORT_RANGE := 16375       // 2^16 - BASE_PORT - 1
  const COUNTER_MODULUS := 65536  // port_ is an atomic uint16_t

  function PortOf(counter: nat, core: nat): (port: nat)
    ensures BASE_PORT <= port <= 65534
  {
    BASE_PORT + (counter + core) % PORT_RANGE
  }

  /** The counter after `n` calls on one core. */
  function CounterAfter(cores: nat, n: nat): nat {
    if n == 0 then 0 else (CounterAfter(cores, n - 1) + cores) % COUNTER_MODULUS
  }

  lemma AddModulo(x: nat, y: nat)
    ensures (x % COUNTER_MODULUS + y) % COUNTER_MODULUS == (x + y) % COUNTER_MODULUS
  {
  }

  lemma {:induction false} CounterIsLinear(cores: nat, n: nat)
    ensures CounterAfter(cores, n) == (n * cores) % COUNTER_MODULUS
  {
    if n > 0 {
      CounterIsLinear(cores, n - 1);
      var x := (n - 1) * cores;
      assert n * cores == x + cores;
      AddModulo(x, cores);
    }
  }

  predicate Collide(cores: nat, core: nat, m: nat, n: nat) {
    PortOf(CounterAfter(cores, m), core) == PortOf(CounterAfter(cores, n), core)
  }

  /** How often the counter wraps between call `m` and call `n`. */
  function Wraps(cores: nat, m: nat, n: nat): int {
    n * cores / COUNTER_MODULUS - m * cores / COUNTER_MODULUS
  }

  lemma SamePort(x: nat, y: nat, core: nat)
    ensures PortOf(x % COUNTER_MODULUS, core) == PortOf(y % COUNTER_MODULUS, core) <==>
      (y - x - COUNTER_MODULUS * (y / COUNTER_MODULUS - x / COUNTER_MODULUS)) % PORT_RANGE == 0
  {
  }

  /** Two calls get the same port exactly when the distance of their counters, wraps taken out, is
      a multiple of the range. */
  lemma CollideExactlyWhen(cores: nat, core: nat, m: nat, n: nat)
    requires m <= n
    ensures Collide(cores, core, m, n) <==>
      ((n - m) * cores - COUNTER_MODULUS * Wraps(cores, m, n)) % PORT_RANGE == 0
  {
    CounterIsLinear(cores, m);
    CounterIsLinear(cores, n);
    SamePort(m * cores, n * cores, core);
    assert (n - m) * cores == n * cores - m * cores;
  }

  /** Within a window shorter than the range, two different calls collide exactly when the counter
      wrapped between them and they are 36 counts apart (65536 is 36 modulo the range). */
  lemma WindowIsDistinct(cores: nat, core: nat, m: nat, n: nat)
    requires m < n && cores > 0 && (n - m) * cores < PORT_RANGE
    ensures Wraps(cores, m, n) == 0 || Wraps(cores, m, n) == 1
    ensures Collide(cores, core, m, n) <==> Wraps(cores, m, n) == 1 && (n - m) * cores == 36
  {
    hide Collide;
    CollideExactlyWhen(cores, core, m, n);
    Distance(cores, m, n);
    OneWrap(m * cores, n * cores);
  }

  lemma SamePortAcross(x: nat, y: nat, c: nat, d: nat)
    ensures PortOf(x % COUNTER_MODULUS, c) == PortOf(y % COUNTER_MODULUS, d) <==>
      (y + d - (x + c) - COUNTER_MODULUS * (y / COUNTER_MODULUS - x / COUNTER_MODULUS)) % PORT_RANGE == 0
  {
    var p, q := x % COUNTER_MODULUS + c, y % COUNTER_MODULUS + d;
    assert y + d - (x + c) - COUNTER_MODULUS * (y / COUNTER_MODULUS - x / COUNTER_MODULUS) == q - p;
  }

  /** Call `m` on core `c` and call `n` on core `d` get different ports while both counters are in the
      same round of 2^16 and less than the range apart: the core numbers keep them apart. */
  lemma CoresAreDistinct(cores: nat, c: nat, d: nat, m: nat, n: nat)
    requires c < cores && d < cores && (c != d || m != n)
    requires Wraps(cores, m, n) == 0 && -PORT_RANGE < (n * cores + d) - (m * cores + c) < PORT_RANGE
    ensures PortOf(CounterAfter(cores, m), c) != PortOf(CounterAfter(cores, n), d)
  {
    hide PortOf;
    CounterIsLinear(cores, m);
    CounterIsLinear(cores, n);
    SamePortAcross(m * cores, n * cores, c, d);
    SmallMultiple((n * cores + d) - (m * cores + c));
    OwnSlot(cores, c, d, m, n);
  }

  lemma OwnSlot(cores: nat, c: nat, d: nat, m: nat, n: nat)
    requires c < cores && d < cores
    ensures n * cores + d == m * cores + c ==> c == d && m == n
  {
    var e := n - m;
    assert e * cores == n * cores - m * cores;
    assert e >= 1 ==> e * cores >= cores;
    assert -e >= 1 ==> -e * cores >= cores;
  }

  lemma Distance(cores: nat, m: nat, n: nat)
    requires m < n && cores > 0
    ensures (n - m) * cores == n * cores - m * cores > 0
  {
  }

  lemma OneWrap(x: nat, y: nat)
    requires x < y < x + PORT_RANGE
    ensures var w := y / COUNTER_MODULUS - x / COUNTER_MODULUS;
      && 0 <= w <= 1
      && ((y - x - COUNTER_MODULUS * w) % PORT_RANGE == 0 <==> w == 1 && y - x == 36)
  {
    var w := y / COUNTER_MODULUS - x / COUNTER_MODULUS;
    assert 0 <= w <= 1;
    SmallMultiple(y - x);
    SmallMultiple(y - x - 36);
    assert y - x - COUNTER_MODULUS == y - x - 36 - 4 * PORT_RANGE;
  }

  lemma SmallMultiple(d: int)
    requires -PORT_RANGE < d < PORT_RANGE
    ensures d % PORT_RANGE == 0 <==> d == 0
  {
  }
}
