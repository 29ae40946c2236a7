/**
  The points and damping tables of the destructive-contact rules.

  Blocks are registered in tiers by index: 0..9, 10..29, 30..39 and the single
  block 40. A projectile hitting a block (`levelCollision`) scores 5 plus a tier
  extra and slows down along x; a bomb blast or the wind breath scores a flat
  tier value. Every enemy removal scores `ENEMY_POINTS`.
*/
module Scoring {
  import opened Constants

  /** Which table a removal is scored by. */
  datatype Tariff = Impact | Blast | Enemy

  /** Points `levelCollision` adds for block `i`: 5, plus 0, 5, 10 or 50 by tier. */
  function ImpactPoints(i: nat): (p: nat)
    requires i < NUM_BLOCKS
    ensures i < 10 ==> p == 5
    ensures 10 <= i < 30 ==> p == 10
    ensures 30 <= i < 40 ==> p == 15
    ensures i == 40 ==> p == 55
  {
    5 + (if i < 10 then 0 else if i < 30 then 5 else if i < 40 then 10 else 50)
  }

  /** Points a bomb blast or the wind breath adds for block `i`; block 40 scores nothing. */
  function BlastPoints(i: nat): nat
    requires i < NUM_BLOCKS
  {
    if i < 10 then 5 else if i < 30 then 10 else if i < 40 then 15 else 0
  }

  function Points(t: Tariff, i: nat): nat
    requires t != Enemy ==> i < NUM_BLOCKS
  {
    match t
    case Impact => ImpactPoints(i)
    case Blast => BlastPoints(i)
    case Enemy => ENEMY_POINTS
  }

  /** Number of `true` entries. */
  function Count(s: seq<bool>): (n: nat)
    ensures n <= |s|
  {
    if s == [] then 0 else (if s[0] then 1 else 0) + Count(s[1..])
  }

  /** Points earned for the removals flagged in `removed`, whose first entry is
      target number `from`. */
  function Gain(removed: seq<bool>, t: Tariff, from: nat): nat
    requires t != Enemy ==> from + |removed| <= NUM_BLOCKS
  {
    if removed == [] then 0
    else (if removed[0] then Points(t, from) else 0) + Gain(removed[1..], t, from + 1)
  }

  /** The x-velocity damping rate a block hit applies, by projectile kind (its
      index among the five projectiles) and block tier. */
  function DampingRate(kind: int, i: nat): (p: real)
    requires i < NUM_BLOCKS
    ensures 0.0 <= p < 1.0
    ensures p == 0.0 <==> i == 40
  {
    if i < 10 then (if kind == 3 then 0.05 else 0.10)
    else if i < 30 then (if kind == 4 then 0.10 else if kind == 2 then 0.05 else 0.15)
    else if i < 40 then (if kind < 4 then 0.25 else 0.10)
    else 0.0
  }

  /** The x-velocity after one block hit: `vx - vx * p` with the table's rate. */
  function Damp(vx: real, kind: int, i: nat): (r: real)
    requires i < NUM_BLOCKS
  {
    if i < 10 then (if kind == 3 then vx - vx * 0.05 else vx - vx * 0.10)
    else if i < 30 then
      (if kind == 4 then vx - vx * 0.10 else if kind == 2 then vx - vx * 0.05 else vx - vx * 0.15)
    else if i < 40 then (if kind < 4 then vx - vx * 0.25 else vx - vx * 0.10)
    else vx
  }

  /** The x-velocity after the hits flagged in `removed` (the first being block
      `from`), applied in index order. */
  function DampedX(vx: real, kind: int, removed: seq<bool>, from: nat): real
    requires from + |removed| <= NUM_BLOCKS
    decreases |removed|
  {
    if removed == [] then vx
    else DampedX(if removed[0] then Damp(vx, kind, from) else vx, kind, removed[1..], from + 1)
  }

  // ---------------------------------------------------------------------
  // Properties

  /** Bomb and wind score the same as a projectile impact on every block but
      the last, which scores 55 on impact and nothing from a blast. */
  lemma BlastMatchesImpact(i: nat)
    requires i < NUM_BLOCKS
    ensures i < 40 ==> BlastPoints(i) == ImpactPoints(i)
    ensures i == 40 ==> BlastPoints(i) == 0 && ImpactPoints(i) == 55
  {
  }

  /** One damping step is `vx - vx * DampingRate`: it keeps the sign of the
      velocity, never makes it faster, and leaves it unchanged only on block 40
      or at rest. */
  lemma DampScales(vx: real, kind: int, i: nat)
    requires i < NUM_BLOCKS
    ensures Damp(vx, kind, i) == vx - vx * DampingRate(kind, i)
    ensures vx >= 0.0 ==> 0.0 <= Damp(vx, kind, i) <= vx
    ensures vx <= 0.0 ==> vx <= Damp(vx, kind, i) <= 0.0
    ensures Damp(vx, kind, i) == vx <==> vx == 0.0 || i == 40
  {
  }

  /** Any run of hits keeps the sign of the x-velocity and never increases
      its size; without hits it is unchanged. */
  lemma {:induction false} DampedXShrinks(vx: real, kind: int, removed: seq<bool>, from: nat)
    requires from + |removed| <= NUM_BLOCKS
    ensures vx >= 0.0 ==> 0.0 <= DampedX(vx, kind, removed, from) <= vx
    ensures vx <= 0.0 ==> vx <= DampedX(vx, kind, removed, from) <= 0.0
    ensures Count(removed) == 0 ==> DampedX(vx, kind, removed, from) == vx
    decreases |removed|
  {
    if removed != [] {
      var next := if removed[0] then Damp(vx, kind, from) else vx;
      DampScales(vx, kind, from);
      DampedXShrinks(next, kind, removed[1..], from + 1);
    }
  }

  /** Enemy removals are worth exactly `ENEMY_POINTS` each. */
  lemma {:induction false} EnemyGain(removed: seq<bool>, from: nat)
    ensures Gain(removed, Enemy, from) == ENEMY_POINTS * Count(removed)
  {
    if removed != [] {
      EnemyGain(removed[1..], from + 1);
    }
  }

  /** Every projectile impact scores: the gain is zero only when nothing was hit,
      and it is at least 5 per block and at most 55 per block. */
  lemma {:induction false} ImpactGainBounds(removed: seq<bool>, from: nat)
    requires from + |removed| <= NUM_BLOCKS
    ensures 5 * Count(removed) <= Gain(removed, Impact, from) <= 55 * Count(removed)
    ensures Gain(removed, Impact, from) == 0 <==> Count(removed) == 0
  {
    if removed != [] {
      ImpactGainBounds(removed[1..], from + 1);
    }
  }

  /** A blast scores at most 15 per block, and scores nothing for a hit on
      block 40 alone. */
  lemma {:induction false} BlastGainBounds(removed: seq<bool>, from: nat)
    requires from + |removed| <= NUM_BLOCKS
    ensures Gain(removed, Blast, from) <= 15 * Count(removed)
    ensures from + |removed| == NUM_BLOCKS && |removed| > 0 && Count(removed) == 1 && removed[|removed| - 1]
            ==> Gain(removed, Blast, from) == 0
  {
    if removed != [] {
      BlastGainBounds(removed[1..], from + 1);
      if from + |removed| == NUM_BLOCKS && Count(removed) == 1 && removed[|removed| - 1] && |removed| > 1 {
        assert removed[1..][|removed[1..]| - 1] == removed[|removed| - 1];
        CountLastOnly(removed);
      }
    }
  }

  /** If the last entry is set and only one entry is, the first one is not. */
  lemma CountLastOnly(s: seq<bool>)
    requires |s| > 1 && Count(s) == 1 && s[|s| - 1]
    ensures !s[0] && Count(s[1..]) == 1
  {
    if s[0] {
      CountAtLeastLast(s[1..]);
    }
  }

  lemma {:induction false} CountAtLeastLast(s: seq<bool>)
    requires |s| > 0 && s[|s| - 1]
    ensures Count(s) >= 1
  {
    if |s| > 1 {
      assert s[1..][|s[1..]| - 1] == s[|s| - 1];
      CountAtLeastLast(s[1..]);
    }
  }

  /** Appending one entry: the count grows by one exactly when it is set. */
  lemma {:induction false} CountAppend(s: seq<bool>, x: bool)
    ensures Count(s + [x]) == Count(s) + (if x then 1 else 0)
  {
    if s != [] {
      assert (s + [x])[1..] == s[1..] + [x];
      CountAppend(s[1..], x);
    }
  }

  /** Appending one entry: the gain grows by that target's points exactly when
      it is set. */
  lemma {:induction false} GainAppend(s: seq<bool>, x: bool, t: Tariff, from: nat)
    requires t != Enemy ==> from + |s| + 1 <= NUM_BLOCKS
    ensures Gain(s + [x], t, from) == Gain(s, t, from) + (if x then Points(t, from + |s|) else 0)
  {
    if s != [] {
      assert (s + [x])[1..] == s[1..] + [x];
      GainAppend(s[1..], x, t, from + 1);
    }
  }

  /** Appending one entry: one more damping step when it is set. */
  lemma {:induction false} DampedXAppend(vx: real, kind: int, s: seq<bool>, x: bool, from: nat)
    requires from + |s| + 1 <= NUM_BLOCKS
    ensures DampedX(vx, kind, s + [x], from)
            == (if x then Damp(DampedX(vx, kind, s, from), kind, from + |s|) else DampedX(vx, kind, s, from))
    decreases |s|
  {
    if s != [] {
      assert (s + [x])[1..] == s[1..] + [x];
      DampedXAppend(if s[0] then Damp(vx, kind, from) else vx, kind, s[1..], x, from + 1);
    }
  }

  /** Clearing one set entry lowers the count by one. */
  lemma {:induction false} CountClear(s: seq<bool>, k: nat)
    requires k < |s| && s[k]
    ensures Count(s[k := false]) == Count(s) - 1
  {
    if k > 0 {
      assert s[k := false][1..] == s[1..][k - 1 := false];
      CountClear(s[1..], k - 1);
    } else {
      assert s[k := false][1..] == s[1..];
    }
  }

  /** A sequence with every entry set counts its whole length. */
  lemma {:induction false} CountAllSet(s: seq<bool>)
    requires forall i :: 0 <= i < |s| ==> s[i]
    ensures Count(s) == |s|
  {
    if s != [] {
      CountAllSet(s[1..]);
    }
  }

  /** A count of zero means no entry is set. */
  lemma {:induction false} CountZero(s: seq<bool>)
    requires Count(s) == 0
    ensures forall i :: 0 <= i < |s| ==> !s[i]
  {
    if s != [] {
      CountZero(s[1..]);
      forall i | 1 <= i < |s|
        ensures !s[i]
      {
        assert s[i] == s[1..][i - 1];
      }
    }
  }

  /** The lowest set index, or `|s|` when none is set. */
  function FirstVisible(s: seq<bool>): (k: nat)
    ensures k <= |s|
    ensures k < |s| ==> s[k]
    ensures forall j :: 0 <= j < k ==> !s[j]
  {
    if s == [] then 0 else if s[0] then 0 else 1 + FirstVisible(s[1..])
  }

  /** Some entry is set exactly when the count is positive, and then the lowest
      set index is found. */
  lemma {:induction false} FirstVisibleIffAny(s: seq<bool>)
    ensures FirstVisible(s) < |s| <==> Count(s) > 0
  {
    if s != [] && !s[0] {
      FirstVisibleIffAny(s[1..]);
    }
  }
}
