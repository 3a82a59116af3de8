/** The arithmetic of the five-level timing wheel of TCP_C/timer.c. */
module WheelSlots {
  import opened TimerSpec

  /** Level 0 is tv1 with 256 slots, levels 1 to 4 are tv2 to tv5 with 64. Work is the list that the pass in
      progress takes its timers from. */
  datatype Loc = Slot(level: nat, index: nat) | Work

  /** The span of one slot. */
  function Span(level: nat): (m: nat)
    requires level <= 4
    ensures 0 < m
  {
    if level == 0 then 1
    else if level == 1 then 0x100
    else if level == 2 then 0x4000
    else if level == 3 then 0x10_0000
    else 0x400_0000
  }

  function Size(level: nat): (n: nat) {
    if level == 0 then 256 else 64
  }

  predicate IsSlot(loc: Loc) {
    loc.Slot? && loc.level <= 4 && loc.index < Size(loc.level)
  }

  /** The choice of list in internal_add_timer; tj is timer_jiffies. */
  function SlotFor(expires: Word, tj: Word): (loc: Loc)
    ensures IsSlot(loc)
  {
    var idx := (expires - tj) % WORD;
    if idx < 0x100 then Slot(0, expires % 256)
    else if idx < 0x4000 then Slot(1, (expires / 0x100) % 64)
    else if idx < 0x10_0000 then Slot(2, (expires / 0x4000) % 64)
    else if idx < 0x400_0000 then Slot(3, (expires / 0x10_0000) % 64)
    else if idx >= HALF then Slot(0, tj % 256)
    else
      var e := if idx > 0xffff_ffff then (0xffff_ffff + tj) % WORD else expires;
      Slot(4, (e / 0x400_0000) % 64)
  }

  /** The pass of tick c empties this slot: tv1 is run, the other levels are cascaded. */
  predicate Visits(c: nat, loc: Loc)
    requires IsSlot(loc)
  {
    c % Span(loc.level) == 0 && (c / Span(loc.level)) % Size(loc.level) == loc.index
  }

  /** A timer due at d may be in this slot when the next pass is that of tick `from`: tv1 holds a timer in the
      slot of exactly its tick, a higher level in a slot that is cascaded no later than the timer is due. */
  ghost predicate Placed(loc: Loc, d: nat, from: nat)
    requires IsSlot(loc)
  {
    if loc.level == 0 then from <= d < from + 256 && Visits(d, loc)
    else exists c :: from <= c <= d && Visits(c, loc)
  }

  lemma AtLeastOnce(m: int, d: int)
    requires m > 0 && d >= 1
    ensures m * d >= m
  {
  }

  lemma Quotient(n: int, m: int, k: int, z: int)
    requires m > 0 && n == m * k + z && 0 <= z < m
    ensures n / m == k && n % m == z
  {
    var q, r := n / m, n % m;
    assert n == m * q + r;
    assert m * (q - k) == m * q - m * k && m * (k - q) == m * k - m * q;
    if q > k {
      AtLeastOnce(m, q - k);
    } else if q < k {
      AtLeastOnce(m, k - q);
    }
  }

  /** Dividing by m a multiple of m plus e. */
  lemma DivideSum(m: int, a: int, e: int)
    requires m > 0
    ensures (m * a + e) / m == a + e / m && (m * a + e) % m == e % m
  {
    Quotient(m * a + e, m, a + e / m, e % m);
  }

  lemma Low6(x: nat, m: nat, k: nat)
    requires m > 0 && WORD == m * (64 * k)
    ensures ((x % WORD) / m) % 64 == (x / m) % 64
  {
    var q, e := x / WORD, x % WORD;
    assert x == m * (64 * k * q) + e;
    DivideSum(m, 64 * k * q, e);
    assert 64 * k * q + e / m == 64 * (k * q) + e / m;
    DivideSum(64, k * q, e / m);
  }

  /** The low bits of a tick are those of the 64-bit value that stands for it. */
  lemma LowBits(x: nat, level: nat)
    requires level <= 4
    ensures ((x % WORD) / Span(level)) % Size(level) == (x / Span(level)) % Size(level)
  {
    if level == 0 {
      var q, e := x / WORD, x % WORD;
      DivideSum(256, q * (WORD / 256), e);
    } else {
      Low6(x, Span(level), WORD / (64 * Span(level)));
    }
  }

  /** The last visit to a slot's span that is no later than e: the slot that e falls in is emptied then. */
  lemma SpanStart(e: nat, level: nat)
    requires 1 <= level <= 4
    ensures var m := Span(level); var c := e / m * m;
            c <= e < c + m && Visits(c, Slot(level, (e / m) % 64))
  {
    var m := Span(level);
    Quotient(e / m * m, m, e / m, 0);
  }

  lemma SameDifference(now: nat, e: Word)
    ensures (e - now) % WORD == (e - now % WORD) % WORD
  {
  }

  /** A slot at level l >= 1 chosen by the bits of a tick e that is at least one span ahead. */
  lemma PlacedAhead(now: nat, e: nat, d: nat, level: nat)
    requires 1 <= level <= 4 && now + Span(level) <= e <= d
    ensures Placed(Slot(level, ((e % WORD) / Span(level)) % 64), d, now + 1)
  {
    LowBits(e, level);
    SpanStart(e, level);
    var c := e / Span(level) * Span(level);
    assert now + 1 <= c <= d && Visits(c, Slot(level, (e / Span(level)) % 64));
  }

  lemma PlacedSoon(now: nat, d: nat)
    requires now <= d < now + 256
    ensures Placed(Slot(0, (d % WORD) % 256), d, now)
  {
    LowBits(d, 0);
  }

  lemma AddModulo(now: nat, k: nat)
    ensures (k + now % WORD) % WORD == (now + k) % WORD
  {
  }

  /** The branches of internal_add_timer that are told apart by the difference idx. */
  lemma DueByIndex(now: nat, e: Word)
    ensures var idx := (e - now % WORD) % WORD;
            Due(now, e) == (if idx < HALF then now + idx else now) && (idx < HALF ==> Due(now, e) % WORD == e)
  {
    SameDifference(now, e);
  }

  lemma SlotForFar(now: nat, e: Word)
    requires 0x400_0000 <= (e - now % WORD) % WORD < HALF
    ensures var far := if (e - now % WORD) % WORD > 0xffff_ffff then now + 0xffff_ffff else Due(now, e);
            far <= Due(now, e) && SlotFor(e, now % WORD) == Slot(4, ((far % WORD) / 0x400_0000) % 64)
  {
    DueByIndex(now, e);
    AddModulo(now, 0xffff_ffff);
  }

  /** internal_add_timer puts a timer where the wheel will come past in time: in tv1 if it is due within 256
      ticks or was due before, and otherwise, however far ahead, in a slot that is cascaded after this tick and
      no later than the timer is due. */
  lemma SlotForPlaces(now: nat, e: Word)
    ensures var loc := SlotFor(e, now % WORD);
            var d := Due(now, e);
            && Placed(loc, d, if loc.level == 0 then now else now + 1)
            && (loc.level > 0 ==> d % WORD == e)
  {
    hide Placed, Due;
    DueByIndex(now, e);
    var idx := (e - now % WORD) % WORD;
    var d := Due(now, e);
    if idx < 0x100 || idx >= HALF {
      PlacedSoon(now, d);
    } else if idx < 0x400_0000 {
      PlacedAhead(now, d, d, SlotFor(e, now % WORD).level);
    } else {
      SlotForFar(now, e);
      PlacedAhead(now, if idx > 0xffff_ffff then now + 0xffff_ffff else d, d, 4);
    }
  }

  /** The cascades of one pass: tv2 when the low byte of the tick is zero, and one level further for as long as
      the index of the level before was zero too. */
  predicate Cascades(tick: nat, level: nat)
    requires 1 <= level <= 4
  {
    && tick % 256 == 0
    && (level > 1 ==> (tick / 0x100) % 64 == 0)
    && (level > 2 ==> (tick / 0x4000) % 64 == 0)
    && (level > 3 ==> (tick / 0x10_0000) % 64 == 0)
  }

  lemma ZeroBits(x: nat, m: nat)
    requires m > 0
    ensures x % (m * 64) == 0 <==> x % m == 0 && (x / m) % 64 == 0
  {
    var q, r := x / m, x % m;
    var p, s := q / 64, q % 64;
    assert x == m * q + r;
    assert m * q == m * (64 * p + s) == m * 64 * p + m * s;
    assert 0 <= m * s <= m * 63 by {
      MulMono(m, s, 63);
    }
    Quotient(x, m * 64, p, m * s + r);
  }

  lemma MulMono(m: nat, s: nat, t: nat)
    requires s <= t
    ensures m * s <= m * t
  {
  }

  /** The slots that a pass cascades are exactly the slots of the higher levels that its tick visits. */
  lemma CascadesAreVisits(tick: nat, loc: Loc)
    requires IsSlot(loc) && loc.level >= 1
    ensures Visits(tick, loc) <==> Cascades(tick, loc.level) && loc.index == (tick / Span(loc.level)) % 64
  {
    ZeroBits(tick, 0x100);
    ZeroBits(tick, 0x4000);
    ZeroBits(tick, 0x10_0000);
  }
}
