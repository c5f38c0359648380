/**
 Level arithmetic of the bridge: Matter levels 0..254 (a uint8_t, so 0..255 on the wire)
 against WeMo percentages 0..100, both by truncating integer division.
 */
module Levels {

  /** The low 8 or 16 bits of a non-negative number, as the C++ casts keep them. */
  function Uint8(n: nat): (r: nat)
    ensures r == n % 256
  {
    if n < 256 then n else n % 256
  }

  function Uint16(n: nat): (r: nat)
    ensures r == n % 65536
  {
    if n < 65536 then n else n % 65536
  }

  /** `x` rescaled from a range of `from` steps to one of `to` steps, rounding down. */
  function Scale(x: nat, from: nat, to: nat): nat
    requires from > 0
  {
    x * to / from
  }

  /** Matter level to WeMo percentage, with the bump that keeps a tiny level from meaning off. */
  function ToPercent(m: int): int
    requires 0 <= m <= 255
  {
    var percent := Uint8(Scale(m, 254, 100));
    if m > 0 && percent == 0 then 1 else percent
  }

  /** WeMo level to Matter level as the event handler computes it: no clamping, but the
      argument is cut to 16 bits and the result to 8. */
  function ToMatter(level: int): (m: int)
    requires level >= 0
    ensures 0 <= m <= 255
  {
    Uint8(Scale(Uint16(level), 100, 254))
  }

  // ---------------------------------------------------------------- generic bounds

  lemma ScaleBounds(x: nat, from: nat, to: nat)
    requires from > 0
    ensures Scale(x, from, to) * from <= x * to < Scale(x, from, to) * from + from
  {
    var n := x * to;
    assert n == (n / from) * from + n % from;
  }

  lemma TimesMonotone(a: nat, b: nat, c: nat)
    ensures a <= b ==> a * c <= b * c
  {
    if a <= b {
      assert b * c == a * c + (b - a) * c;
    }
  }

  /** `q` is the quotient as soon as it satisfies the division inequalities. */
  lemma ScaleIs(x: nat, from: nat, to: nat, q: nat)
    requires from > 0
    requires q * from <= x * to < q * from + from
    ensures Scale(x, from, to) == q
  {
    var r := Scale(x, from, to);
    ScaleBounds(x, from, to);
    TimesMonotone(r + 1, q, from);
    TimesMonotone(q + 1, r, from);
  }

  lemma ScaleMonotone(x: nat, y: nat, from: nat, to: nat)
    requires from > 0 && x <= y
    ensures Scale(x, from, to) <= Scale(y, from, to)
  {
    var p, q := Scale(x, from, to), Scale(y, from, to);
    ScaleBounds(x, from, to);
    ScaleBounds(y, from, to);
    TimesMonotone(x, y, to);
    TimesMonotone(q + 1, p, from);
  }

  /** Coarse to fine and back loses at most one step, and none exactly when the fine
      value was not rounded. */
  lemma CoarseFineCoarse(p: nat, fine: nat, coarse: nat)
    requires fine >= coarse > 0
    ensures var r := Scale(Scale(p, coarse, fine), fine, coarse);
            && (r == p || r == p - 1)
            && (r == p <==> p * fine % coarse == 0)
  {
    var q := Scale(p, coarse, fine);
    ScaleBounds(p, coarse, fine);
    if q * coarse == p * fine {
      ScaleIs(q, fine, coarse, p);
      assert p * fine % coarse == 0;
    } else {
      assert (p - 1) * fine == p * fine - fine;
      ScaleIs(q, fine, coarse, p - 1);
    }
  }

  /** Fine to coarse and back never gains, and loses less than one coarse step plus one. */
  lemma FineCoarseFine(m: nat, fine: nat, coarse: nat)
    requires fine >= coarse > 0
    ensures var r := Scale(Scale(m, fine, coarse), coarse, fine);
            r <= m && coarse * (m - r) < fine + coarse
  {
    var q := Scale(m, fine, coarse);
    var r := Scale(q, coarse, fine);
    ScaleBounds(m, fine, coarse);
    ScaleBounds(q, coarse, fine);
    assert r > m ==> r * coarse >= (m + 1) * coarse;
    assert coarse * (m - r) == m * coarse - r * coarse;
  }

  // ---------------------------------------------------------------- the two conversions

  lemma PercentRange(m: int)
    requires 0 <= m <= 255
    ensures 0 <= ToPercent(m) <= 100
    ensures ToPercent(m) == 0 <==> m == 0
  {
    ScaleBounds(m, 254, 100);
  }

  /** What the conversion computes: 1 for the two levels the bump concerns, and otherwise the
      whole part of m * 100 / 254. */
  lemma PercentExact(m: int)
    requires 0 <= m <= 255
    ensures m == 1 || m == 2 ==> ToPercent(m) == 1
    ensures m != 1 && m != 2 ==> 254 * ToPercent(m) <= 100 * m < 254 * ToPercent(m) + 254
  {
    ScaleBounds(m, 254, 100);
  }

  /** What the other conversion computes, casts included: the low 8 bits of the whole part of
      x * 254 / 100, x being the low 16 bits of the level. */
  lemma MatterExact(level: int, q: int)
    requires level >= 0
    requires 100 * q <= 254 * (level % 65536) < 100 * q + 100
    ensures ToMatter(level) == q % 256
  {
    ScaleIs(level % 65536, 100, 254, q);
  }

  lemma MatterRange(p: int)
    requires 0 <= p <= 100
    ensures ToMatter(p) == Scale(p, 100, 254) <= 254
    ensures ToMatter(p) == 0 <==> p == 0
  {
    ScaleBounds(p, 100, 254);
  }

  lemma ConversionsMonotone(x: int, y: int)
    requires 0 <= x <= y
    ensures y <= 255 ==> ToPercent(x) <= ToPercent(y)
    ensures y <= 100 ==> ToMatter(x) <= ToMatter(y)
  {
    if y <= 255 {
      ScaleMonotone(x, y, 254, 100);
      ScaleBounds(y, 254, 100);
    }
    if y <= 100 {
      ScaleMonotone(x, y, 100, 254);
      MatterRange(x);
      MatterRange(y);
    }
  }

  /** Different percentages stay different Matter levels. */
  lemma MatterInjective(x: int, y: int)
    requires 0 <= x <= 100 && 0 <= y <= 100
    ensures ToMatter(x) == ToMatter(y) <==> x == y
  {
    MatterRange(x);
    MatterRange(y);
    ScaleBounds(x, 100, 254);
    ScaleBounds(y, 100, 254);
  }

  /** Matter to WeMo to Matter: what an honest device echoes for a commanded level is the
      commanded level or up to 3 below it; only the level 1 comes back higher. */
  lemma EchoLoss(m: int)
    requires 0 <= m <= 255
    ensures m != 1 ==> m - 3 <= ToMatter(ToPercent(m)) <= m
    ensures m == 1 ==> ToMatter(ToPercent(m)) == 2
  {
    var q := Scale(m, 254, 100);
    ScaleBounds(m, 254, 100);
    if m > 0 && q == 0 {
      assert m <= 2;
    } else {
      MatterRange(q);
      FineCoarseFine(m, 254, 100);
    }
  }

  /** 254/100 in lowest terms is 127/50, so only multiples of 50 convert without rounding. */
  lemma ExactQuotient(q: int, m: int)
    ensures 254 * q == 100 * m ==> q == 50 * (13 * m - 33 * q) && m == 127 * (13 * m - 33 * q)
  {
  }

  lemma Divides(p: nat)
    ensures p * 254 % 100 == 0 <==> p % 50 == 0
  {
    var k, j := p / 50, p * 254 / 100;
    if p * 254 % 100 == 0 {
      assert p * 254 == 100 * j;
      ExactQuotient(p, j);
      MultipleOf(13 * j - 33 * p, 50);
    }
    if p % 50 == 0 {
      assert p * 254 == 100 * (127 * k);
      MultipleOf(127 * k, 100);
    }
  }

  lemma MultipleOf(k: int, n: int)
    requires n == 50 || n == 100
    ensures n * k % n == 0
  {
  }

  /** `q` is the unbumped percentage of `m`, `r` the Matter level of `q`. */
  lemma ExactEcho(m: int, q: int, r: int)
    requires 0 <= m <= 255 && 0 <= q && 0 <= r
    requires 254 * q <= 100 * m < 254 * q + 254
    requires 100 * r <= 254 * q < 100 * r + 100
    ensures r == m <==> m == 0 || m == 127 || m == 254
  {
    ExactQuotient(q, m);
  }

  /** The echo of an honest device survives the handler's equality test unchanged for four
      levels only; every other echo inside the settle window is suppressed as a mismatch. */
  lemma EchoIsExactIff(m: int)
    requires 0 <= m <= 255
    ensures ToMatter(ToPercent(m)) == m <==> m == 0 || m == 2 || m == 127 || m == 254
  {
    var q := Scale(m, 254, 100);
    ScaleBounds(m, 254, 100);
    if m > 0 && q == 0 {
      assert m <= 2;
    } else {
      MatterRange(q);
      ScaleBounds(q, 100, 254);
      ExactEcho(m, q, Scale(q, 100, 254));
    }
  }

  // ---------------------------------------------------------------- repeated round trips

  /** One WeMo to Matter to WeMo round trip. */
  function Cycle(p: int): (r: int)
    requires 0 <= p <= 100
    ensures 0 <= r <= 100
  {
    PercentRange(ToMatter(p));
    ToPercent(ToMatter(p))
  }

  function Cycles(p: int, k: nat): int
    requires 0 <= p <= 100
    ensures 0 <= Cycles(p, k) <= 100
    decreases k
  {
    if k == 0 then p else Cycles(Cycle(p), k - 1)
  }

  /** The percentages that survive a round trip, as the resting point below `p`. */
  function Rest(p: int): int
    requires 0 <= p <= 100
  {
    if p == 0 then 0 else if p < 50 then 1 else p - p % 50
  }

  lemma CycleStep(p: int)
    requires 0 <= p <= 100
    ensures Cycle(p) == if p == Rest(p) then p else p - 1
  {
    MatterRange(p);
    CoarseFineCoarse(p, 254, 100);
    Divides(p);
  }

  lemma RestBelow(p: int)
    requires 0 <= p <= 100
    ensures 0 <= Rest(p) <= p && (Rest(p) == 0 <==> p == 0)
    ensures p > Rest(p) ==> Rest(p - 1) == Rest(p)
  {
  }

  /** `k` round trips in closed form: a percentage slides down one step a trip until it
      rests at 0, 1, 50 or 100. So no number of trips raises it, none takes a non-zero
      percentage to 0, and only those four are stable. */
  lemma {:induction false} CyclesClosedForm(p: int, k: nat)
    requires 0 <= p <= 100
    ensures Cycles(p, k) == if p - k >= Rest(p) then p - k else Rest(p)
    ensures Cycles(p, k) <= p
    ensures Cycles(p, k) == 0 <==> p == 0
    decreases k
  {
    if k > 0 {
      var c := Cycle(p);
      assert c == (if p == Rest(p) then p else p - 1) by {
        CycleStep(p);
      }
      RestBelow(p);
      CyclesClosedForm(c, k - 1);
    }
  }
}
