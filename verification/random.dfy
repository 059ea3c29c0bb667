/** The C library generator as the particle system sees it: `rand()` yields integers in
    [0, RAND_MAX], and `randf()` divides one such draw by RAND_MAX. The generator is an
    injected stream of draws with a cursor, so every operation that consumes randomness
    takes a source and hands back the source advanced past the draws it used. */
module Random {

  /** RAND_MAX as the GNU C library defines it; the C standard only asks for at least 32767,
      and nothing below depends on the exact value beyond its being positive. */
  const RandMax: int := 0x7fff_ffff

  /** What `rand()` may return. */
  type RandValue = d: int | 0 <= d <= RandMax

  /** `draw(n)` is the n-th value `rand()` returns; `next` is the cursor. */
  datatype Source = Source(draw: nat -> RandValue, next: nat)

  /** A value produced from the generator together with the generator afterwards. */
  datatype Drawn<T> = Drawn(value: T, rest: Source)

  /** The source after `k` more calls to `rand()`: the same stream, `k` draws further on. */
  function Skip(s: Source, k: nat): Source
  {
    s.(next := s.next + k)
  }

  /** `randf()`: one draw divided by RAND_MAX. Both ends of [0, 1] are reachable. */
  function RandF(s: Source): (r: Drawn<real>)
    ensures 0.0 <= r.value <= 1.0
    ensures r.value == 0.0 <==> s.draw(s.next) == 0
    ensures r.value == 1.0 <==> s.draw(s.next) == RandMax
    ensures r.rest == Skip(s, 1)
  {
    var d := s.draw(s.next);
    UnitQuotient(d as real, RandMax as real);
    Drawn(d as real / RandMax as real, Skip(s, 1))
  }

  /** A quotient d / m with 0 <= d <= m lies in [0, 1], hitting the ends exactly at d = 0 and d = m. */
  lemma UnitQuotient(d: real, m: real)
    requires 0.0 <= d <= m && 0.0 < m
    ensures 0.0 <= d / m <= 1.0
    ensures d / m == 0.0 <==> d == 0.0
    ensures d / m == 1.0 <==> d == m
  {
  }

  lemma SkipSkip(s: Source, a: nat, b: nat)
    ensures Skip(Skip(s, a), b) == Skip(s, a + b)
  {
  }
}
