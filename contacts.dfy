/**
  The contact tests of the destructive-contact rules.

  Sprites are compared through their bounding boxes with `rect::isInside`, whose
  definition is not part of this model: it is the parameter `inside`, with
  `inside(a, b)` standing for `a.isInside(b)`. Every rule tests a target `t`
  against a moving rect `r` with the grouping `r.isInside(t) || (t.isInside(r)
  && flag)`, which is what C++ precedence makes of the source's unparenthesised
  condition: the flag only guards the second half.
*/
module Contacts {
  import opened Constants
  import opened Scoring

  datatype Rect = Rect(x: real, y: real, length: real, height: real)

  type Containment = (Rect, Rect) -> bool

  /** The rect `bombCollision` starts its explosion with. */
  const NO_EXPLOSION := Rect(0.0, 0.0, 0.0, 0.0)

  /** `r.isInside(t)` for every target `t`. */
  function Outward(inside: Containment, r: Rect, targets: seq<Rect>): (s: seq<bool>)
    ensures |s| == |targets|
    ensures forall i :: 0 <= i < |s| ==> s[i] == inside(r, targets[i])
  {
    seq(|targets|, i requires 0 <= i < |targets| => inside(r, targets[i]))
  }

  /** `t.isInside(r)` for every target `t`. */
  function Inward(inside: Containment, r: Rect, targets: seq<Rect>): (s: seq<bool>)
    ensures |s| == |targets|
    ensures forall i :: 0 <= i < |s| ==> s[i] == inside(targets[i], r)
  {
    seq(|targets|, i requires 0 <= i < |targets| => inside(targets[i], r))
  }

  /** `n` copies of `false`: a guard half that never holds. */
  function NoneOf(n: nat): (s: seq<bool>)
    ensures |s| == n && Count(s) == 0
    ensures forall i :: 0 <= i < n ==> !s[i]
  {
    if n == 0 then [] else [false] + NoneOf(n - 1)
  }

  /**
    The targets one pass removes, scanning upwards: target `i` is removed when it
    is visible and `a[i] || (b[i] && flag)`. When `clears` holds, the first
    removal clears the flag (the bomb turns invisible on its first contact).
  */
  function Removed(vis: seq<bool>, a: seq<bool>, b: seq<bool>, flag: bool, clears: bool): (r: seq<bool>)
    requires |a| == |vis| && |b| == |vis|
    ensures |r| == |vis|
    decreases |vis|
  {
    if vis == [] then []
    else
      var hit := vis[0] && (a[0] || (b[0] && flag));
      [hit] + Removed(vis[1..], a[1..], b[1..], if clears && hit then false else flag, clears)
  }

  /** The flag after a pass that removed `removed`. */
  function FlagAfter(flag: bool, removed: seq<bool>, clears: bool): bool
  {
    flag && !(clears && Count(removed) > 0)
  }

  /** Visibility after the removals. */
  function Cleared(vis: seq<bool>, removed: seq<bool>): (r: seq<bool>)
    requires |removed| == |vis|
    ensures |r| == |vis|
    ensures forall i :: 0 <= i < |r| ==> r[i] == (vis[i] && !removed[i])
  {
    seq(|vis|, i requires 0 <= i < |vis| => vis[i] && !removed[i])
  }

  /** Whether `enemyCollision` removes each enemy: the projectile touches it, or a
      visible scatter shot does. */
  function EnemyStruck(inside: Containment, projectile: Rect, scatter: seq<Rect>,
                       scatterVis: seq<bool>, enemies: seq<Rect>): (s: seq<bool>)
    requires |scatter| == NUM_PROJECTILES_SCATTER && |scatterVis| == NUM_PROJECTILES_SCATTER
    ensures |s| == |enemies|
    ensures forall i :: 0 <= i < |s| ==>
              (s[i] <==> Touch(inside, projectile, enemies[i])
                         || exists j :: 0 <= j < NUM_PROJECTILES_SCATTER && scatterVis[j] && Touch(inside, scatter[j], enemies[i]))
  {
    seq(|enemies|, i requires 0 <= i < |enemies| =>
      Touch(inside, projectile, enemies[i])
      || (Touch(inside, scatter[0], enemies[i]) && scatterVis[0])
      || (Touch(inside, scatter[1], enemies[i]) && scatterVis[1]))
  }

  predicate Touch(inside: Containment, r: Rect, t: Rect)
  {
    inside(r, t) || inside(t, r)
  }

  /** The explosion `bombCollision` builds around the bomb rect `b`. Its vertical
      offset uses the bomb's length, as the x offset does. */
  function BlastRect(b: Rect): Rect
  {
    Rect(b.x - b.length * 4.0, b.y - b.length * 4.0, b.length * 9.0, b.height * 9.0)
  }

  /** The area `windBreath` sweeps in front of the projectile rect `p`. */
  function WindRect(p: Rect): Rect
  {
    Rect(p.x + p.length, p.y - p.height, p.length * 4.0, p.height * 3.0)
  }

  /** `r` lies within `area`, edges included. */
  predicate Within(r: Rect, area: Rect)
  {
    area.x <= r.x && area.y <= r.y
    && r.x + r.length <= area.x + area.length
    && r.y + r.height <= area.y + area.height
  }

  /** The boundary test of `projectileCollision`: some edge of `p` crosses out of `area`. */
  predicate LeavesArea(p: Rect, area: Rect)
  {
    p.x < area.x || p.y < area.y
    || p.x + p.length > area.x + area.length
    || p.y + p.height > area.y + area.height
  }

  /** The bomb's ground test as `bombCollision` writes it: the bomb's bottom edge
      is below the TOP edge of the play area. */
  predicate GroundedAsWritten(b: Rect, area: Rect)
  {
    b.y + b.height > area.y
  }

  /** The ground test the bomb's falling motion calls for: its bottom edge is
      below the BOTTOM edge of the play area. */
  predicate Grounded(b: Rect, area: Rect)
  {
    b.y + b.height > area.y + area.height
  }

  // ---------------------------------------------------------------------
  // Properties

  /** A rect leaves the area exactly when it does not lie within it. */
  lemma LeavesAreaIffNotWithin(p: Rect, area: Rect)
    ensures LeavesArea(p, area) <==> !Within(p, area)
  {
  }

  /** The explosion is nine bomb lengths wide and starts four lengths left of the
      bomb, so it is centred on the bomb horizontally and contains it when the
      bomb has a non-negative size. It is centred vertically exactly when the
      bomb is square. */
  lemma BlastRectAroundBomb(b: Rect)
    ensures BlastRect(b).x + BlastRect(b).length / 2.0 == b.x + b.length / 2.0
    ensures BlastRect(b).y + BlastRect(b).height / 2.0 == b.y + b.height / 2.0 <==> b.length == b.height
    ensures b.length >= 0.0 && b.height >= 0.0 && b.length == b.height ==> Within(b, BlastRect(b))
  {
  }

  /** The wind area starts at the projectile's right edge, is four projectile
      lengths long, and is centred on the projectile vertically. */
  lemma WindRectAhead(p: Rect)
    ensures WindRect(p).x == p.x + p.length
    ensures WindRect(p).x + WindRect(p).length == p.x + 5.0 * p.length
    ensures WindRect(p).y + WindRect(p).height / 2.0 == p.y + p.height / 2.0
  {
  }

  /** As written, the ground test fires on any bomb of positive height lying in
      the play area, and so on the bomb at the spot it is released from; the
      intended test never fires on such a bomb. */
  lemma GroundTestAsWritten(b: Rect, area: Rect)
    requires Within(b, area) && b.height > 0.0
    ensures GroundedAsWritten(b, area)
    ensures !Grounded(b, area)
  {
  }

  /** Entry `i` of a pass is decided by the flag as it stands after the first
      `i` targets. */
  lemma {:induction false} RemovedAt(vis: seq<bool>, a: seq<bool>, b: seq<bool>, flag: bool, clears: bool, i: nat)
    requires |a| == |vis| && |b| == |vis| && i < |vis|
    ensures var r := Removed(vis, a, b, flag, clears);
            r[i] == (vis[i] && (a[i] || (b[i] && FlagAfter(flag, r[..i], clears))))
    decreases |vis|
  {
    if i > 0 {
      var hit := vis[0] && (a[0] || (b[0] && flag));
      var flag' := if clears && hit then false else flag;
      RemovedAt(vis[1..], a[1..], b[1..], flag', clears, i - 1);
      RemovedTail(vis, a, b, flag, clears, i);
    }
  }

  /** Past the first target, a pass goes on as a pass over the rest, with the
      flag as the first target left it. */
  lemma RemovedTail(vis: seq<bool>, a: seq<bool>, b: seq<bool>, flag: bool, clears: bool, i: nat)
    requires |a| == |vis| && |b| == |vis| && 0 < i < |vis|
    ensures var r := Removed(vis, a, b, flag, clears);
            var hit := vis[0] && (a[0] || (b[0] && flag));
            var flag' := if clears && hit then false else flag;
            var r' := Removed(vis[1..], a[1..], b[1..], flag', clears);
            r[i] == r'[i - 1] && FlagAfter(flag, r[..i], clears) == FlagAfter(flag', r'[..i - 1], clears)
  {
    var r := Removed(vis, a, b, flag, clears);
    var hit := vis[0] && (a[0] || (b[0] && flag));
    var flag' := if clears && hit then false else flag;
    var r' := Removed(vis[1..], a[1..], b[1..], flag', clears);
    assert r == [hit] + r';
    assert r[..i] == [hit] + r'[..i - 1];
    assert r[..i][0] == hit && r[..i][1..] == r'[..i - 1];
    assert Count(r[..i]) == (if hit then 1 else 0) + Count(r'[..i - 1]);
  }

  /** Without the flag, a pass removes exactly the visible targets whose first
      guard half holds or whose second half holds; with a clearing flag, a target
      reached only through the second half is removed only before any other removal. */
  lemma RemovedExactly(vis: seq<bool>, a: seq<bool>, b: seq<bool>, flag: bool, clears: bool, i: nat)
    requires |a| == |vis| && |b| == |vis| && i < |vis|
    ensures !clears ==> (Removed(vis, a, b, flag, clears)[i] <==> vis[i] && (a[i] || (b[i] && flag)))
    ensures clears ==> (Removed(vis, a, b, flag, clears)[i]
                        <==> vis[i] && (a[i] || (b[i] && flag && Count(Removed(vis, a, b, flag, clears)[..i]) == 0)))
  {
    RemovedAt(vis, a, b, flag, clears, i);
  }

  /** A pass only removes visible targets that one of the guard halves holds
      for; it removes every visible target the first half holds for; and
      without the flag it removes exactly those. */
  lemma RemovedSound(vis: seq<bool>, a: seq<bool>, b: seq<bool>, flag: bool, clears: bool)
    requires |a| == |vis| && |b| == |vis|
    ensures var r := Removed(vis, a, b, flag, clears);
            forall i :: 0 <= i < |r| ==> (r[i] ==> vis[i] && (a[i] || b[i]))
    ensures var r := Removed(vis, a, b, flag, clears);
            forall i :: 0 <= i < |r| ==> (vis[i] && a[i] ==> r[i])
    ensures var r := Removed(vis, a, b, flag, clears);
            !flag ==> forall i :: 0 <= i < |r| ==> (r[i] <==> vis[i] && a[i])
  {
    forall i | 0 <= i < |vis| {
      RemovedAt(vis, a, b, flag, clears, i);
    }
  }

  /** One more target of a pass: the prefix grows by that target's entry, and
      the count, the gain and the flag move accordingly. */
  lemma SweepStep(vis: seq<bool>, a: seq<bool>, b: seq<bool>, flag: bool, clears: bool, t: Tariff, i: nat)
    requires |a| == |vis| && |b| == |vis| && i < |vis|
    requires t != Enemy ==> |vis| <= NUM_BLOCKS
    ensures var r := Removed(vis, a, b, flag, clears);
            var hit := vis[i] && (a[i] || (b[i] && FlagAfter(flag, r[..i], clears)));
            r[..i + 1] == r[..i] + [hit]
            && Count(r[..i + 1]) == Count(r[..i]) + (if hit then 1 else 0)
            && Gain(r[..i + 1], t, 0) == Gain(r[..i], t, 0) + (if hit then Points(t, i) else 0)
            && FlagAfter(flag, r[..i + 1], clears) == (FlagAfter(flag, r[..i], clears) && !(clears && hit))
  {
    var r := Removed(vis, a, b, flag, clears);
    RemovedAt(vis, a, b, flag, clears, i);
    PrefixStep(r, flag, clears, t, i);
  }

  /** Extending a prefix of removals by one entry. */
  lemma PrefixStep(r: seq<bool>, flag: bool, clears: bool, t: Tariff, i: nat)
    requires i < |r| && (t != Enemy ==> |r| <= NUM_BLOCKS)
    ensures r[..i + 1] == r[..i] + [r[i]]
    ensures Count(r[..i + 1]) == Count(r[..i]) + (if r[i] then 1 else 0)
    ensures Gain(r[..i + 1], t, 0) == Gain(r[..i], t, 0) + (if r[i] then Points(t, i) else 0)
    ensures FlagAfter(flag, r[..i + 1], clears) == (FlagAfter(flag, r[..i], clears) && !(clears && r[i]))
  {
    assert r[..i + 1] == r[..i] + [r[i]];
    CountAppend(r[..i], r[i]);
    GainAppend(r[..i], r[i], t, 0);
  }

  /** One more block of `levelCollision`: the prefix, the gain and the damped
      x-velocity each take that block's hit into account. */
  lemma LevelStep(sc: Scene, blocks: seq<bool>, i: nat, vx: real, kind: int)
    requires sc.Valid() && |blocks| == NUM_BLOCKS && i < NUM_BLOCKS
    ensures var r := LevelHits(sc, blocks);
            var hit := blocks[i] && sc.inside(sc.projectile, sc.blocks[i]);
            r[..i + 1] == r[..i] + [hit]
            && Gain(r[..i + 1], Impact, 0) == Gain(r[..i], Impact, 0) + (if hit then ImpactPoints(i) else 0)
            && DampedX(vx, kind, r[..i + 1], 0)
               == (if hit then Damp(DampedX(vx, kind, r[..i], 0), kind, i) else DampedX(vx, kind, r[..i], 0))
  {
    var r := LevelHits(sc, blocks);
    assert r[..i + 1] == r[..i] + [r[i]];
    GainAppend(r[..i], r[i], Impact, 0);
    DampedXAppend(vx, kind, r[..i], r[i], 0);
  }

  /** A pass conserves "removed so far plus still visible": the removed targets
      were visible, and they are exactly the ones no longer visible. */
  lemma {:induction false} CountCleared(vis: seq<bool>, removed: seq<bool>)
    requires |removed| == |vis|
    requires forall i :: 0 <= i < |vis| ==> (removed[i] ==> vis[i])
    ensures Count(Cleared(vis, removed)) + Count(removed) == Count(vis)
    decreases |vis|
  {
    if vis != [] {
      CountCleared(vis[1..], removed[1..]);
      assert Cleared(vis, removed)[1..] == Cleared(vis[1..], removed[1..]);
    }
  }

  // ---------------------------------------------------------------------
  // The rects one frame works on

  /** The bounding boxes the collision rules read: the play area, the current
      projectile, the two scatter shots, the bomb and the targets. */
  datatype Scene = Scene(inside: Containment, area: Rect, projectile: Rect, scatter: seq<Rect>,
                         bomb: Rect, enemies: seq<Rect>, blocks: seq<Rect>, platforms: seq<Rect>)
  {
    predicate Valid()
    {
      |scatter| == NUM_PROJECTILES_SCATTER && |enemies| == NUM_ENEMIES
      && |blocks| == NUM_BLOCKS && |platforms| == NUM_PLATFORMS
    }
  }

  /** The blocks `levelCollision` removes: the visible ones the projectile lies inside. */
  function LevelHits(sc: Scene, blocks: seq<bool>): (r: seq<bool>)
    requires sc.Valid() && |blocks| == NUM_BLOCKS
    ensures |r| == NUM_BLOCKS
    ensures forall i :: 0 <= i < NUM_BLOCKS ==> (r[i] <==> blocks[i] && sc.inside(sc.projectile, sc.blocks[i]))
  {
    RemovedSound(blocks, Outward(sc.inside, sc.projectile, sc.blocks), NoneOf(NUM_BLOCKS), false, false);
    Removed(blocks, Outward(sc.inside, sc.projectile, sc.blocks), NoneOf(NUM_BLOCKS), false, false)
  }

  /** The enemies `enemyCollision` removes: the visible ones the projectile or a
      visible scatter shot touches. */
  function EnemyHits(sc: Scene, enemies: seq<bool>, scatterVisible: seq<bool>): (r: seq<bool>)
    requires sc.Valid() && |enemies| == NUM_ENEMIES && |scatterVisible| == NUM_PROJECTILES_SCATTER
    ensures |r| == NUM_ENEMIES
  {
    Removed(enemies, EnemyStruck(sc.inside, sc.projectile, sc.scatter, scatterVisible, sc.enemies),
            NoneOf(NUM_ENEMIES), false, false)
  }

  /** The enemies the wind breath removes. The second guard half reads the
      enemy's own visibility, which holds for every enemy the pass looks at. */
  function WindEnemies(sc: Scene, enemies: seq<bool>): (r: seq<bool>)
    requires sc.Valid() && |enemies| == NUM_ENEMIES
    ensures |r| == NUM_ENEMIES
  {
    var w := WindRect(sc.projectile);
    Removed(enemies, Outward(sc.inside, w, sc.enemies), Inward(sc.inside, w, sc.enemies), true, false)
  }

  /** The blocks the wind breath removes. The second guard half reads the
      BOMB's visibility. */
  function WindBlocks(sc: Scene, blocks: seq<bool>, bombVisible: bool): (r: seq<bool>)
    requires sc.Valid() && |blocks| == NUM_BLOCKS
    ensures |r| == NUM_BLOCKS
  {
    var w := WindRect(sc.projectile);
    Removed(blocks, Outward(sc.inside, w, sc.blocks), Inward(sc.inside, w, sc.blocks), bombVisible, false)
  }

  /** What `bombCollision` does, pass by pass: the targets each pass removes,
      the platforms the bomb hits, the explosion rect and the bomb's visibility. */
  datatype BombOutcome = BombOutcome(
    enemies1: seq<bool>, blocks1: seq<bool>, platforms: seq<bool>,
    explosion: Rect,
    enemies2: seq<bool>, blocks2: seq<bool>,
    bombVisible: bool)

  /** Whether any of the three direct-contact passes hit something. */
  predicate DirectHit(o: BombOutcome)
  {
    Count(o.enemies1) + Count(o.blocks1) + Count(o.platforms) > 0
  }

  /** What the direct passes of the bomb do: the enemies and blocks they
      remove, the platforms they touch, the bomb's visibility after them and
      the explosion rect. */
  datatype Direct = Direct(enemies: seq<bool>, blocks: seq<bool>, platforms: seq<bool>, visible: bool, explosion: Rect)

  /** What the explosion passes do: the enemies and blocks they remove and the
      bomb's visibility after them. */
  datatype Aftermath = Aftermath(enemies: seq<bool>, blocks: seq<bool>, visible: bool)

  /** Enemies, blocks and platforms against the bomb rect, each contact
      hiding the bomb; the explosion is placed around the bomb on any contact. */
  function BombDirectPass(sc: Scene, enemies: seq<bool>, blocks: seq<bool>, platforms: seq<bool>, visible: bool): (d: Direct)
    requires sc.Valid() && |enemies| == NUM_ENEMIES && |blocks| == NUM_BLOCKS && |platforms| == NUM_PLATFORMS
    ensures |d.enemies| == NUM_ENEMIES && |d.blocks| == NUM_BLOCKS && |d.platforms| == NUM_PLATFORMS
  {
    var b := sc.bomb;
    var e1 := Removed(enemies, Outward(sc.inside, b, sc.enemies), Inward(sc.inside, b, sc.enemies), visible, true);
    var f1 := FlagAfter(visible, e1, true);
    var b1 := Removed(blocks, Outward(sc.inside, b, sc.blocks), Inward(sc.inside, b, sc.blocks), f1, true);
    var f2 := FlagAfter(f1, b1, true);
    var p := Removed(platforms, Outward(sc.inside, b, sc.platforms), Inward(sc.inside, b, sc.platforms), f2, true);
    Direct(e1, b1, p, FlagAfter(f2, p, true),
           if Count(e1) + Count(b1) + Count(p) > 0 then BlastRect(b) else NO_EXPLOSION)
  }

  /** Enemies, then blocks, against the explosion rect, each contact hiding
      the bomb. */
  function BombBlastPass(sc: Scene, explosion: Rect, enemies: seq<bool>, blocks: seq<bool>, visible: bool): (x: Aftermath)
    requires sc.Valid() && |enemies| == NUM_ENEMIES && |blocks| == NUM_BLOCKS
    ensures |x.enemies| == NUM_ENEMIES && |x.blocks| == NUM_BLOCKS
  {
    var e2 := Removed(enemies, Outward(sc.inside, explosion, sc.enemies), Inward(sc.inside, explosion, sc.enemies), visible, true);
    var f := FlagAfter(visible, e2, true);
    var b2 := Removed(blocks, Outward(sc.inside, explosion, sc.blocks), Inward(sc.inside, explosion, sc.blocks), f, true);
    Aftermath(e2, b2, FlagAfter(f, b2, true))
  }

  /** The bomb's passes: the direct passes; the ground test, which hides the
      bomb; then the explosion passes on what is left. */
  function BombPass(sc: Scene, enemies: seq<bool>, blocks: seq<bool>, platforms: seq<bool>, visible: bool): (o: BombOutcome)
    requires sc.Valid() && |enemies| == NUM_ENEMIES && |blocks| == NUM_BLOCKS && |platforms| == NUM_PLATFORMS
    ensures |o.enemies1| == NUM_ENEMIES && |o.enemies2| == NUM_ENEMIES
    ensures |o.blocks1| == NUM_BLOCKS && |o.blocks2| == NUM_BLOCKS && |o.platforms| == NUM_PLATFORMS
  {
    var d := BombDirectPass(sc, enemies, blocks, platforms, visible);
    var x := BombBlastPass(sc, d.explosion, Cleared(enemies, d.enemies), Cleared(blocks, d.blocks),
                           d.visible && !Grounded(sc.bomb, sc.area));
    BombOutcome(d.enemies, d.blocks, d.platforms, d.explosion, x.enemies, x.blocks, x.visible)
  }

  /** The platforms `setupPlatforms` shows for a level and map layout: always a prefix
      of the platform array, of this length. */
  function PlatformsShown(level: int, layout: int): (n: nat)
    requires 0 <= level < NUM_LEVELS && 0 <= layout < 3
    ensures 5 <= n <= 8 && n <= NUM_PLATFORMS
  {
    if level == 0 then [5, 7, 8][layout]
    else if level == 1 then [6, 7, 6][layout]
    else [5, 6, 8][layout]
  }

  /** Platform visibility after `setupPlatforms` as written: the level's platforms
      are made visible and no platform is ever hidden. */
  function PlatformsAsWritten(platforms: seq<bool>, n: nat): (r: seq<bool>)
    ensures |r| == |platforms|
  {
    seq(|platforms|, i requires 0 <= i < |platforms| => i < n || platforms[i])
  }

  /** Platform visibility the level set-up calls for: the level's platforms and
      no others. */
  function PlatformsFor(n: nat): (r: seq<bool>)
    ensures |r| == NUM_PLATFORMS
    ensures forall i :: 0 <= i < NUM_PLATFORMS ==> (r[i] <==> i < n)
  {
    seq(NUM_PLATFORMS, i requires 0 <= i < NUM_PLATFORMS => i < n)
  }

  // ---------------------------------------------------------------------
  // Properties of the passes

  /** The wind removes every visible enemy it touches and no other; it removes
      a visible block it lies inside, and one lying inside it only while the
      bomb is visible. */
  lemma WindReach(sc: Scene, enemies: seq<bool>, blocks: seq<bool>, bombVisible: bool)
    requires sc.Valid() && |enemies| == NUM_ENEMIES && |blocks| == NUM_BLOCKS
    ensures var w := WindRect(sc.projectile);
            forall i :: 0 <= i < NUM_ENEMIES ==>
              (WindEnemies(sc, enemies)[i] <==> enemies[i] && Touch(sc.inside, w, sc.enemies[i]))
    ensures var w := WindRect(sc.projectile);
            forall i :: 0 <= i < NUM_BLOCKS ==>
              (WindBlocks(sc, blocks, bombVisible)[i]
               <==> blocks[i] && (sc.inside(w, sc.blocks[i]) || (sc.inside(sc.blocks[i], w) && bombVisible)))
  {
    var w := WindRect(sc.projectile);
    forall i | 0 <= i < NUM_ENEMIES
      ensures WindEnemies(sc, enemies)[i] <==> enemies[i] && Touch(sc.inside, w, sc.enemies[i])
    {
      RemovedExactly(enemies, Outward(sc.inside, w, sc.enemies), Inward(sc.inside, w, sc.enemies), true, false, i);
    }
    forall i | 0 <= i < NUM_BLOCKS
      ensures WindBlocks(sc, blocks, bombVisible)[i]
              <==> blocks[i] && (sc.inside(w, sc.blocks[i]) || (sc.inside(sc.blocks[i], w) && bombVisible))
    {
      RemovedExactly(blocks, Outward(sc.inside, w, sc.blocks), Inward(sc.inside, w, sc.blocks), bombVisible, false, i);
    }
  }

  /** `enemyCollision` removes exactly the visible enemies that the projectile
      touches or a visible scatter shot touches. */
  lemma EnemyHitsExactly(sc: Scene, enemies: seq<bool>, scatterVisible: seq<bool>)
    requires sc.Valid() && |enemies| == NUM_ENEMIES && |scatterVisible| == NUM_PROJECTILES_SCATTER
    ensures forall i :: 0 <= i < NUM_ENEMIES ==>
              (EnemyHits(sc, enemies, scatterVisible)[i]
               <==> enemies[i] && (Touch(sc.inside, sc.projectile, sc.enemies[i])
                                  || exists j :: 0 <= j < NUM_PROJECTILES_SCATTER && scatterVisible[j]
                                                && Touch(sc.inside, sc.scatter[j], sc.enemies[i])))
  {
    RemovedSound(enemies, EnemyStruck(sc.inside, sc.projectile, sc.scatter, scatterVisible, sc.enemies),
                 NoneOf(NUM_ENEMIES), false, false);
  }

  /** The bomb stays visible exactly when it was visible, touched nothing and is
      not on the ground; the explosion is the blast rect exactly when the bomb
      touched something, and the empty rect otherwise. */
  lemma BombVisibility(sc: Scene, enemies: seq<bool>, blocks: seq<bool>, platforms: seq<bool>, visible: bool)
    requires sc.Valid() && |enemies| == NUM_ENEMIES && |blocks| == NUM_BLOCKS && |platforms| == NUM_PLATFORMS
    ensures var o := BombPass(sc, enemies, blocks, platforms, visible);
            o.bombVisible <==> visible && !DirectHit(o) && !Grounded(sc.bomb, sc.area)
                               && Count(o.enemies2) == 0 && Count(o.blocks2) == 0
    ensures var o := BombPass(sc, enemies, blocks, platforms, visible);
            o.explosion == (if DirectHit(o) then BlastRect(sc.bomb) else NO_EXPLOSION)
  {
  }

  /** An invisible bomb only removes targets it lies inside; and once the bomb
      has touched anything, the explosion only removes targets the explosion
      rect lies inside: a target lying inside the explosion is spared, because
      that half of the test needs the bomb to be visible. */
  lemma BombBlastNeedsVisibility(sc: Scene, enemies: seq<bool>, blocks: seq<bool>, platforms: seq<bool>, visible: bool)
    requires sc.Valid() && |enemies| == NUM_ENEMIES && |blocks| == NUM_BLOCKS && |platforms| == NUM_PLATFORMS
    ensures var o := BombPass(sc, enemies, blocks, platforms, visible);
            !visible ==> forall i :: 0 <= i < NUM_ENEMIES ==>
              (o.enemies1[i] <==> enemies[i] && sc.inside(sc.bomb, sc.enemies[i]))
    ensures var o := BombPass(sc, enemies, blocks, platforms, visible);
            DirectHit(o) ==>
              (forall i :: 0 <= i < NUM_ENEMIES ==>
                 (o.enemies2[i] <==> enemies[i] && !o.enemies1[i] && sc.inside(o.explosion, sc.enemies[i])))
              && (forall i :: 0 <= i < NUM_BLOCKS ==>
                 (o.blocks2[i] <==> blocks[i] && !o.blocks1[i] && sc.inside(o.explosion, sc.blocks[i])))
  {
    var o := BombPass(sc, enemies, blocks, platforms, visible);
    RemovedSound(enemies, Outward(sc.inside, sc.bomb, sc.enemies), Inward(sc.inside, sc.bomb, sc.enemies), visible, true);
    BlastPassSound(sc, enemies, blocks, platforms, visible);
  }

  /** No target is removed twice: what the explosion removes was still visible
      after the direct passes. */
  lemma BombRemovesOnce(sc: Scene, enemies: seq<bool>, blocks: seq<bool>, platforms: seq<bool>, visible: bool)
    requires sc.Valid() && |enemies| == NUM_ENEMIES && |blocks| == NUM_BLOCKS && |platforms| == NUM_PLATFORMS
    ensures var o := BombPass(sc, enemies, blocks, platforms, visible);
            (forall i :: 0 <= i < NUM_ENEMIES ==> !(o.enemies1[i] && o.enemies2[i]))
            && (forall i :: 0 <= i < NUM_BLOCKS ==> !(o.blocks1[i] && o.blocks2[i]))
  {
    BlastPassSound(sc, enemies, blocks, platforms, visible);
  }

  /** The explosion passes of `BombPass` as passes over what the direct passes
      left: sound, and exact when the bomb is no longer visible. */
  lemma BlastPassSound(sc: Scene, enemies: seq<bool>, blocks: seq<bool>, platforms: seq<bool>, visible: bool)
    requires sc.Valid() && |enemies| == NUM_ENEMIES && |blocks| == NUM_BLOCKS && |platforms| == NUM_PLATFORMS
    ensures var o := BombPass(sc, enemies, blocks, platforms, visible);
            var d := BombDirectPass(sc, enemies, blocks, platforms, visible);
            var f := d.visible && !Grounded(sc.bomb, sc.area);
            var ev := Cleared(enemies, o.enemies1);
            var bv := Cleared(blocks, o.blocks1);
            var x := o.explosion;
            (forall i :: 0 <= i < NUM_ENEMIES ==> (o.enemies2[i] ==> ev[i]))
            && (forall i :: 0 <= i < NUM_BLOCKS ==> (o.blocks2[i] ==> bv[i]))
            && (!f ==> forall i :: 0 <= i < NUM_ENEMIES ==> (o.enemies2[i] <==> ev[i] && sc.inside(x, sc.enemies[i])))
            && (!FlagAfter(f, o.enemies2, true) ==>
                  forall i :: 0 <= i < NUM_BLOCKS ==> (o.blocks2[i] <==> bv[i] && sc.inside(x, sc.blocks[i])))
  {
    var o := BombPass(sc, enemies, blocks, platforms, visible);
    var d := BombDirectPass(sc, enemies, blocks, platforms, visible);
    var f := d.visible && !Grounded(sc.bomb, sc.area);
    var ev := Cleared(enemies, o.enemies1);
    var bv := Cleared(blocks, o.blocks1);
    var x := o.explosion;
    RemovedSound(ev, Outward(sc.inside, x, sc.enemies), Inward(sc.inside, x, sc.enemies), f, true);
    RemovedSound(bv, Outward(sc.inside, x, sc.blocks), Inward(sc.inside, x, sc.blocks), FlagAfter(f, o.enemies2, true), true);
  }

  /** The pass as written, with `GroundedAsWritten` in place of `Grounded`: a
      bomb of positive height lying within the play area is hidden by the end
      of the pass, whatever it touched, and the explosion removes exactly the
      remaining targets it lies inside. The corrected pass `BombPass` keeps
      such a bomb visible when nothing at all was hit. */
  lemma BombPassAsWritten(sc: Scene, enemies: seq<bool>, blocks: seq<bool>, platforms: seq<bool>, visible: bool)
    requires sc.Valid() && |enemies| == NUM_ENEMIES && |blocks| == NUM_BLOCKS && |platforms| == NUM_PLATFORMS
    requires Within(sc.bomb, sc.area) && sc.bomb.height > 0.0
    ensures var d := BombDirectPass(sc, enemies, blocks, platforms, visible);
            var ev := Cleared(enemies, d.enemies);
            var bv := Cleared(blocks, d.blocks);
            var x := BombBlastPass(sc, d.explosion, ev, bv, d.visible && !GroundedAsWritten(sc.bomb, sc.area));
            !x.visible
            && (forall i :: 0 <= i < NUM_ENEMIES ==> (x.enemies[i] <==> ev[i] && sc.inside(d.explosion, sc.enemies[i])))
            && (forall i :: 0 <= i < NUM_BLOCKS ==> (x.blocks[i] <==> bv[i] && sc.inside(d.explosion, sc.blocks[i])))
    ensures var o := BombPass(sc, enemies, blocks, platforms, visible);
            visible && !DirectHit(o) && Count(o.enemies2) == 0 && Count(o.blocks2) == 0 ==> o.bombVisible
  {
    GroundTestAsWritten(sc.bomb, sc.area);
    var d := BombDirectPass(sc, enemies, blocks, platforms, visible);
    var ev := Cleared(enemies, d.enemies);
    var bv := Cleared(blocks, d.blocks);
    var x := BombBlastPass(sc, d.explosion, ev, bv, false);
    RemovedSound(ev, Outward(sc.inside, d.explosion, sc.enemies), Inward(sc.inside, d.explosion, sc.enemies), false, true);
    RemovedSound(bv, Outward(sc.inside, d.explosion, sc.blocks), Inward(sc.inside, d.explosion, sc.blocks), false, true);
  }

  /** The level set-up the game calls for shows exactly the level's platforms. */
  lemma {:induction false} PlatformsForCount(n: nat)
    requires n <= NUM_PLATFORMS
    ensures Count(PlatformsFor(n)) == n
  {
    CountPrefix(NUM_PLATFORMS, n);
    assert PlatformsFor(n) == seq(NUM_PLATFORMS, i requires 0 <= i < NUM_PLATFORMS => i < n);
  }

  lemma {:induction false} CountPrefix(len: nat, n: nat)
    requires n <= len
    ensures Count(seq(len, i requires 0 <= i < len => i < n)) == n
    decreases len
  {
    var s := seq(len, i requires 0 <= i < len => i < n);
    if len > 0 {
      if n == len {
        CountPrefix(len - 1, n - 1);
        var t := seq(len - 1, i requires 0 <= i < len - 1 => i < n - 1);
        assert s == t + [true];
        CountAppend(t, true);
      } else {
        CountPrefix(len - 1, n);
        var t := seq(len - 1, i requires 0 <= i < len - 1 => i < n);
        assert s == t + [false];
        CountAppend(t, false);
      }
    }
  }

  /** As written, platforms of an earlier level stay visible: after level 0 on
      map 2 (eight platforms), level 1 on map 0 should show six, yet platforms
      6 and 7 are still shown. */
  lemma LeftoverPlatformsStayVisible()
    ensures var after := PlatformsAsWritten(PlatformsFor(PlatformsShown(0, 2)), PlatformsShown(1, 0));
            after[6] && after[7] && !PlatformsFor(PlatformsShown(1, 0))[6]
            && after != PlatformsFor(PlatformsShown(1, 0))
  {
    var after := PlatformsAsWritten(PlatformsFor(PlatformsShown(0, 2)), PlatformsShown(1, 0));
    assert after[6] != PlatformsFor(PlatformsShown(1, 0))[6];
  }
}
