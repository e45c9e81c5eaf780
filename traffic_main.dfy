/**
 * Traffic Dash's main loop rules: water bottles (64 x 64, centred on their spawn
 * point) are spawned under a cap of 20 and a minimum separation of 100 pixels on
 * some axis; the player collects a bottle when their rects and then their masks
 * overlap; the car timer spawns a car at a start position only when that
 * position is not among the recently used ones, which it keeps as a short list.
 *
 * Random draws are parameters: a candidate centre (x, y) for each spawn
 * attempt, a start position and a y jitter for each car-timer event. The pixel
 * masks are a parameter over the offset between the two images. Cars are
 * reported by their spawn point; the Car class models what is created there.
 */
module TrafficMain {
  import opened Common
  import opened Geometry

  const BottleCap: int := 20
  const BottleSize: nat := 64
  const MinSeparation: int := 100
  const RecentLanes: int := 5
  const CarJitter: int := 8
  const InitialAttempts: int := 20

  /** A water bottle: only its rect matters to the rules. */
  datatype Bottle = Bottle(rect: Rect)

  function BottleAt(x: int, y: int): (b: Bottle)
    ensures b.rect.CenterX() == x && b.rect.CenterY() == y
    ensures b.rect.w == BottleSize && b.rect.h == BottleSize
  {
    Bottle(CenteredAt(x, y, BottleSize, BottleSize))
  }

  /** The spawn area: the player's reachable playfield, randint(640, 2560) by randint(1180, 3500). */
  predicate InSpawnArea(x: int, y: int)
  {
    640 <= x <= 2560 && 1180 <= y <= 3500
  }

  /** Two centres closer than 100 pixels on both axes. */
  predicate Near(x1: int, y1: int, x2: int, y2: int)
  {
    -MinSeparation < x1 - x2 < MinSeparation && -MinSeparation < y1 - y2 < MinSeparation
  }

  /** A candidate centre that would be too close to bottle b. */
  predicate Crowds(b: Bottle, x: int, y: int)
  {
    Near(b.rect.CenterX(), b.rect.CenterY(), x, y)
  }

  /** Any two bottle centres are at least 100 apart on some axis. */
  predicate Separated(bs: seq<Bottle>)
  {
    forall i, j :: 0 <= i < j < |bs| ==> !Crowds(bs[i], bs[j].rect.CenterX(), bs[j].rect.CenterY())
  }

  /** spawn_water_bottle accepts a candidate exactly under the cap and clear of every bottle. */
  predicate CanSpawn(bs: seq<Bottle>, x: int, y: int)
  {
    |bs| < BottleCap && forall i :: 0 <= i < |bs| ==> !Crowds(bs[i], x, y)
  }

  /** An accepted candidate keeps the bottles separated. */
  lemma SpawnKeepsSeparated(bs: seq<Bottle>, x: int, y: int)
    requires Separated(bs) && CanSpawn(bs, x, y)
    ensures Separated(bs + [BottleAt(x, y)])
  {
    var nb := bs + [BottleAt(x, y)];
    forall i, j | 0 <= i < j < |nb|
      ensures !Crowds(nb[i], nb[j].rect.CenterX(), nb[j].rect.CenterY())
    {
      if j == |bs| {
        assert nb[i] == bs[i];
      } else {
        assert nb[i] == bs[i] && nb[j] == bs[j];
      }
    }
  }

  /** Removing a bottle keeps the others separated. */
  lemma RemoveKeepsSeparated(bs: seq<Bottle>, k: nat)
    requires Separated(bs) && k < |bs|
    ensures Separated(bs[..k] + bs[k + 1..])
  {
    var nb := bs[..k] + bs[k + 1..];
    forall i, j | 0 <= i < j < |nb|
      ensures !Crowds(nb[i], nb[j].rect.CenterX(), nb[j].rect.CenterY())
    {
      var i0 := if i < k then i else i + 1;
      var j0 := if j < k then j else j + 1;
      assert nb[i] == bs[i0] && nb[j] == bs[j0];
    }
  }

  /** check_bottle_collision: the rect test first, then the mask test at the offset
      of the bottle's top-left corner from the player's. */
  function CheckBottleCollision(player: Rect, b: Bottle, maskHit: (int, int) -> bool): (hit: bool)
    ensures !Overlaps(player, b.rect) ==> !hit
    ensures hit ==> maskHit(b.rect.x - player.x, b.rect.y - player.y)
    ensures Overlaps(player, b.rect) && maskHit(b.rect.x - player.x, b.rect.y - player.y) ==> hit
  {
    if Overlaps(player, b.rect) then
      var offsetX := b.rect.x - player.x;
      var offsetY := b.rect.y - player.y;
      maskHit(offsetX, offsetY)
    else false
  }

  /** The bottles of bs the player collects, and those it does not, in order. */
  function Collected(player: Rect, bs: seq<Bottle>, maskHit: (int, int) -> bool): seq<Bottle>
  {
    if bs == [] then []
    else if CheckBottleCollision(player, bs[|bs| - 1], maskHit) then
      Collected(player, bs[..|bs| - 1], maskHit) + [bs[|bs| - 1]]
    else Collected(player, bs[..|bs| - 1], maskHit)
  }

  function Missed(player: Rect, bs: seq<Bottle>, maskHit: (int, int) -> bool): seq<Bottle>
  {
    if bs == [] then []
    else if CheckBottleCollision(player, bs[|bs| - 1], maskHit) then
      Missed(player, bs[..|bs| - 1], maskHit)
    else Missed(player, bs[..|bs| - 1], maskHit) + [bs[|bs| - 1]]
  }

  /** Every bottle is either collected or missed, never both. */
  lemma {:induction false} CollectedMissedPartition(player: Rect, bs: seq<Bottle>, maskHit: (int, int) -> bool)
    ensures |Collected(player, bs, maskHit)| + |Missed(player, bs, maskHit)| == |bs|
    ensures forall b :: b in Collected(player, bs, maskHit) ==> b in bs && CheckBottleCollision(player, b, maskHit)
    ensures forall b :: b in Missed(player, bs, maskHit) <==> b in bs && !CheckBottleCollision(player, b, maskHit)
  {
    if bs != [] {
      var init := bs[..|bs| - 1];
      assert bs == init + [bs[|bs| - 1]];
      CollectedMissedPartition(player, init, maskHit);
    }
  }

  /** Extending the visited prefix by one bottle. */
  lemma VisitStep(player: Rect, s: seq<Bottle>, i: nat, maskHit: (int, int) -> bool)
    requires i < |s|
    ensures CheckBottleCollision(player, s[i], maskHit) ==>
      Collected(player, s[..i + 1], maskHit) == Collected(player, s[..i], maskHit) + [s[i]] &&
      Missed(player, s[..i + 1], maskHit) == Missed(player, s[..i], maskHit)
    ensures !CheckBottleCollision(player, s[i], maskHit) ==>
      Collected(player, s[..i + 1], maskHit) == Collected(player, s[..i], maskHit) &&
      Missed(player, s[..i + 1], maskHit) == Missed(player, s[..i], maskHit) + [s[i]]
  {
    assert s[..i + 1][..i] == s[..i];
  }

  /** The bottles the pickup loop spawns over the first i bottles of the snapshot
      snap: each collected bottle is removed and its replacement is attempted at
      the next draw, draw(k) for the k-th collection, against the live list of
      that moment (the bottles missed so far, the unvisited ones and the earlier
      replacements). */
  function Replacements(player: Rect, snap: seq<Bottle>, maskHit: (int, int) -> bool,
                        draw: nat -> (int, int), i: nat): seq<Bottle>
    requires i <= |snap|
  {
    if i == 0 then []
    else
      var prev := Replacements(player, snap, maskHit, draw, i - 1);
      if CheckBottleCollision(player, snap[i - 1], maskHit) then
        var live := Missed(player, snap[..i - 1], maskHit) + snap[i..] + prev;
        var c := draw(|Collected(player, snap[..i - 1], maskHit)|);
        if CanSpawn(live, c.0, c.1) then prev + [BottleAt(c.0, c.1)] else prev
      else prev
  }

  /** At most one replacement per collected bottle. */
  lemma {:induction false} ReplacementsBound(player: Rect, snap: seq<Bottle>, maskHit: (int, int) -> bool,
                                             draw: nat -> (int, int), i: nat)
    requires i <= |snap|
    ensures |Replacements(player, snap, maskHit, draw, i)| <= |Collected(player, snap[..i], maskHit)|
  {
    if i > 0 {
      ReplacementsBound(player, snap, maskHit, draw, i - 1);
      VisitStep(player, snap, i - 1, maskHit);
    }
  }

  /** One more visited bottle adds the replacement the visit spawned, if any. */
  lemma ReplacementsStep(player: Rect, snap: seq<Bottle>, maskHit: (int, int) -> bool,
                         draw: nat -> (int, int), i: nat, c: (int, int), added: bool)
    requires i < |snap| && c == draw(|Collected(player, snap[..i], maskHit)|)
    requires added <==> (CheckBottleCollision(player, snap[i], maskHit) &&
      CanSpawn(Missed(player, snap[..i], maskHit) + snap[i + 1..] + Replacements(player, snap, maskHit, draw, i), c.0, c.1))
    ensures Replacements(player, snap, maskHit, draw, i + 1) ==
      Replacements(player, snap, maskHit, draw, i) + if added then [BottleAt(c.0, c.1)] else []
  {
  }

  predicate NoDuplicates<T(==)>(s: seq<T>)
  {
    forall i, j :: 0 <= i < j < |s| ==> s[i] != s[j]
  }

  /** The car timer's list update: append an unused start position, then drop the
      oldest entry if the list is longer than five. */
  function NextRecent(recent: seq<(int, int)>, start: (int, int)): (r: seq<(int, int)>)
    ensures start !in recent ==> |r| > 0 && r[|r| - 1] == start
    ensures NoDuplicates(recent) ==> NoDuplicates(r)
    ensures |recent| <= RecentLanes ==> |r| <= RecentLanes
    ensures |recent| > RecentLanes ==> |r| <= |recent|
    ensures start in recent && |recent| > RecentLanes ==> |r| == |recent| - 1
  {
    var appended := if start in recent then recent else recent + [start];
    if |appended| > RecentLanes then appended[1..] else appended
  }

  /** The recent list stays free of duplicates and, once at most five long, stays so
      over any run of car-timer events. */
  lemma {:induction false} RecentStaysShort(recent: seq<(int, int)>, starts: seq<(int, int)>)
    requires NoDuplicates(recent) && |recent| <= RecentLanes
    ensures var r := RecentAfter(recent, starts); NoDuplicates(r) && |r| <= RecentLanes
  {
    if starts != [] {
      RecentStaysShort(recent, starts[..|starts| - 1]);
    }
  }

  /** The recent list after a run of car-timer events. */
  function RecentAfter(recent: seq<(int, int)>, starts: seq<(int, int)>): seq<(int, int)>
  {
    if starts == [] then recent
    else NextRecent(RecentAfter(recent, starts[..|starts| - 1]), starts[|starts| - 1])
  }

  /** One spawn_water_bottle call at the candidate centre (x, y). */
  function SpawnAttempt(bs: seq<Bottle>, x: int, y: int): seq<Bottle>
  {
    if CanSpawn(bs, x, y) then bs + [BottleAt(x, y)] else bs
  }

  /** n spawn attempts in a row, the k-th at draw(k). */
  function SpawnAttempts(bs: seq<Bottle>, draw: nat -> (int, int), n: nat): seq<Bottle>
  {
    if n == 0 then bs else SpawnAttempt(SpawnAttempts(bs, draw, n - 1), draw(n - 1).0, draw(n - 1).1)
  }

  /** A run of attempts only appends, at most one bottle per attempt, keeps the
      bottles separated and never passes the cap. */
  lemma {:induction false} SpawnAttemptsKeep(bs: seq<Bottle>, draw: nat -> (int, int), n: nat)
    requires Separated(bs) && |bs| <= BottleCap
    ensures var r := SpawnAttempts(bs, draw, n);
      bs <= r && |r| <= |bs| + n && |r| <= BottleCap && Separated(r)
  {
    if n > 0 {
      SpawnAttemptsKeep(bs, draw, n - 1);
      var prev := SpawnAttempts(bs, draw, n - 1);
      var (x, y) := draw(n - 1);
      if CanSpawn(prev, x, y) {
        SpawnKeepsSeparated(prev, x, y);
      }
    }
  }

  /** Every bottle of s is centred in the spawn area. */
  predicate AllInSpawnArea(s: seq<Bottle>)
  {
    forall j :: 0 <= j < |s| ==> InSpawnArea(s[j].rect.CenterX(), s[j].rect.CenterY())
  }

  lemma AllInSpawnAreaAppend(s: seq<Bottle>, x: int, y: int)
    requires AllInSpawnArea(s) && InSpawnArea(x, y)
    ensures AllInSpawnArea(s + [BottleAt(x, y)])
  {
  }

  /** The bottles during the pickup loop, after i visits: the snapshot's missed
      bottles so far, the unvisited rest and the bottles spawned so far. The
      bottle visited next sits right after the missed ones. */
  lemma PickupAt(missed: seq<Bottle>, snap: seq<Bottle>, i: nat, spawned: seq<Bottle>)
    requires i < |snap|
    ensures var bs := missed + snap[i..] + spawned; |missed| < |bs| && bs[|missed|] == snap[i]
  {
  }

  /** One visit of the pickup loop keeps the layout of PickupAt: a missed bottle
      moves into the missed part, a collected one leaves and its replacement, if
      any, joins the spawned part. */
  lemma PickupStep(player: Rect, snap: seq<Bottle>, i: nat, maskHit: (int, int) -> bool,
                   spawned: seq<Bottle>, before: seq<Bottle>, after: seq<Bottle>, added: seq<Bottle>)
    requires i < |snap|
    requires before == Missed(player, snap[..i], maskHit) + snap[i..] + spawned
    requires var k := |Missed(player, snap[..i], maskHit)|;
      if CheckBottleCollision(player, snap[i], maskHit) then k < |before| && after == before[..k] + before[k + 1..] + added
      else after == before && added == []
    ensures after == Missed(player, snap[..i + 1], maskHit) + snap[i + 1..] + (spawned + added)
  {
    VisitStep(player, snap, i, maskHit);
    var m := Missed(player, snap[..i], maskHit);
    assert snap[i..] == [snap[i]] + snap[i + 1..];
    if CheckBottleCollision(player, snap[i], maskHit) {
      assert before[..|m|] == m;
      assert before[|m| + 1..] == snap[i + 1..] + spawned;
    } else {
      assert spawned + added == spawned;
    }
  }

  class World {
    var bottles: seq<Bottle>
    var score: nat
    /** The car timer's recently used start positions. */
    var recent: seq<(int, int)>

    ghost predicate Valid()
      reads this
    {
      |bottles| <= BottleCap && Separated(bottles) && AllInSpawnArea(bottles)
    }

    /** A new session. The setup loops reuse the name of the recent-start list, so it
        begins as the position list of the last long obstacle type, given here. */
    constructor (recent: seq<(int, int)>)
      ensures Valid()
      ensures bottles == [] && score == 0 && this.recent == recent
    {
      bottles := [];
      score := 0;
      this.recent := recent;
    }

    /** spawn_water_bottle with the candidate centre (x, y). */
    method SpawnWaterBottle(x: int, y: int) returns (spawned: bool)
      requires Valid() && InSpawnArea(x, y)
      modifies this`bottles
      ensures Valid()
      ensures spawned <==> CanSpawn(old(bottles), x, y)
      ensures spawned ==> bottles == old(bottles) + [BottleAt(x, y)]
      ensures !spawned ==> bottles == old(bottles)
    {
      if |bottles| >= BottleCap {
        return false;
      }
      var i := 0;
      while i < |bottles|
        invariant 0 <= i <= |bottles|
        invariant forall l :: 0 <= l < i ==> !Crowds(bottles[l], x, y)
      {
        var b := bottles[i];
        if -MinSeparation < b.rect.CenterX() - x < MinSeparation &&
           -MinSeparation < b.rect.CenterY() - y < MinSeparation {
          return false;
        }
        i := i + 1;
      }
      SpawnKeepsSeparated(bottles, x, y);
      AllInSpawnAreaAppend(bottles, x, y);
      bottles := bottles + [BottleAt(x, y)];
      return true;
    }

    /** The start-up loop: twenty spawn attempts, the k-th at draw(k). */
    method InitialSpawn(draw: nat -> (int, int))
      requires Valid()
      requires forall k :: InSpawnArea(draw(k).0, draw(k).1)
      modifies this`bottles
      ensures Valid()
      ensures bottles == SpawnAttempts(old(bottles), draw, InitialAttempts)
      ensures old(bottles) <= bottles && |bottles| <= |old(bottles)| + InitialAttempts
    {
      var k := 0;
      while k < InitialAttempts
        invariant 0 <= k <= InitialAttempts && Valid()
        invariant bottles == SpawnAttempts(old(bottles), draw, k)
      {
        var _ := SpawnWaterBottle(draw(k).0, draw(k).1);
        k := k + 1;
      }
      SpawnAttemptsKeep(old(bottles), draw, InitialAttempts);
    }

    /** The bottle timer: a spawn attempt while fewer than 20 bottles exist. */
    method BottleTimer(x: int, y: int)
      requires Valid() && InSpawnArea(x, y)
      modifies this`bottles
      ensures Valid()
      ensures bottles == SpawnAttempt(old(bottles), x, y)
    {
      if |bottles| < BottleCap {
        var _ := SpawnWaterBottle(x, y);
      }
    }

    /** The car timer with start position `start` (from the car start positions) and
        y jitter: a car is created at the jittered start only when the start is not
        in the recent list; the list is updated as NextRecent says. */
    method CarTimer(start: (int, int), jitter: int) returns (car: Option<(int, int)>)
      requires -CarJitter <= jitter <= CarJitter
      modifies this`recent
      ensures recent == NextRecent(old(recent), start)
      ensures car.Some? <==> start !in old(recent)
      ensures car.Some? ==> car.value == (start.0, start.1 + jitter)
    {
      car := None;
      if start !in recent {
        recent := recent + [start];
        car := Some((start.0, start.1 + jitter));
      }
      if |recent| > RecentLanes {
        recent := recent[1..];
      }
    }

    /** One collected bottle: kill the bottle at index `at`, score 1, and attempt a
        spawn at (x, y). */
    method Collect(at: nat, x: int, y: int) returns (added: bool)
      requires Valid() && at < |bottles| && InSpawnArea(x, y)
      modifies this`bottles, this`score
      ensures Valid()
      ensures score == old(score) + 1
      ensures var rest := old(bottles)[..at] + old(bottles)[at + 1..];
        (added <==> CanSpawn(rest, x, y)) &&
        bottles == if added then rest + [BottleAt(x, y)] else rest
    {
      RemoveKeepsSeparated(bottles, at);
      bottles := bottles[..at] + bottles[at + 1..];
      score := score + 1;
      added := SpawnWaterBottle(x, y);
    }

    /** One turn of the pickup loop, for the i-th bottle of the snapshot, found at
        index `at` of the live list: collect it when the player touches it, with
        (x, y) as the next spawn draw. The live list keeps its layout: the bottles
        missed so far, the unvisited ones, then the spawned ones. */
    method Visit(player: Rect, maskHit: (int, int) -> bool, snapshot: seq<Bottle>, i: nat, at: nat,
                 x: int, y: int, ghost spawned: seq<Bottle>)
      returns (hit: bool, added: bool)
      requires Valid() && i < |snapshot| && InSpawnArea(x, y)
      requires at == |Missed(player, snapshot[..i], maskHit)|
      requires bottles == Missed(player, snapshot[..i], maskHit) + snapshot[i..] + spawned
      modifies this`bottles, this`score
      ensures Valid()
      ensures hit == CheckBottleCollision(player, snapshot[i], maskHit)
      ensures score == old(score) + (if hit then 1 else 0)
      ensures !hit ==> bottles == old(bottles) && !added
      ensures added <==> hit && CanSpawn(Missed(player, snapshot[..i], maskHit) + snapshot[i + 1..] + spawned, x, y)
      ensures bottles == Missed(player, snapshot[..i + 1], maskHit) + snapshot[i + 1..] +
        (spawned + if added then [BottleAt(x, y)] else [])
    {
      ghost var m := Missed(player, snapshot[..i], maskHit);
      PickupAt(m, snapshot, i, spawned);
      hit := CheckBottleCollision(player, snapshot[i], maskHit);
      added := false;
      if hit {
        assert snapshot[i..] == [snapshot[i]] + snapshot[i + 1..];
        assert bottles[..at] == m && bottles[at + 1..] == snapshot[i + 1..] + spawned;
        assert bottles[..at] + bottles[at + 1..] == m + snapshot[i + 1..] + spawned;
        added := Collect(at, x, y);
      }
      PickupStep(player, snapshot, i, maskHit, spawned, old(bottles), bottles, if added then [BottleAt(x, y)] else []);
    }

    /** The pickup loop over a snapshot of the bottles: each bottle the player
        collects is removed and scores 1, and a spawn attempt at the next draw
        follows it. Bottles spawned during the loop are not visited. */
    method Pickup(player: Rect, maskHit: (int, int) -> bool, draw: nat -> (int, int))
      requires Valid()
      requires forall k :: InSpawnArea(draw(k).0, draw(k).1)
      modifies this`bottles, this`score
      ensures Valid()
      ensures score == old(score) + |Collected(player, old(bottles), maskHit)|
      ensures Missed(player, old(bottles), maskHit) <= bottles
      ensures |bottles| <= |old(bottles)|
      ensures |bottles| - |Missed(player, old(bottles), maskHit)| <= |Collected(player, old(bottles), maskHit)|
      ensures bottles == Missed(player, old(bottles), maskHit) +
        Replacements(player, old(bottles), maskHit, draw, |old(bottles)|)
    {
      var snapshot := bottles;
      ghost var spawned: seq<Bottle> := [];
      ghost var collected: seq<Bottle> := [];
      ghost var missed: seq<Bottle> := [];
      var i := 0;
      var hits := 0;
      var kept := 0;
      assert snapshot[..0] == [] && snapshot[0..] == snapshot;
      while i < |snapshot|
        invariant 0 <= i <= |snapshot| && Valid()
        invariant collected == Collected(player, snapshot[..i], maskHit)
        invariant missed == Missed(player, snapshot[..i], maskHit)
        invariant hits == |collected| && kept == |missed|
        invariant score == old(score) + hits
        invariant bottles == missed + snapshot[i..] + spawned
        invariant spawned == Replacements(player, snapshot, maskHit, draw, i)
      {
        var x, y := draw(hits).0, draw(hits).1;
        var hit, added := Visit(player, maskHit, snapshot, i, kept, x, y, spawned);
        VisitStep(player, snapshot, i, maskHit);
        ReplacementsStep(player, snapshot, maskHit, draw, i, (x, y), added);
        spawned := spawned + if added then [BottleAt(x, y)] else [];
        if hit {
          hits := hits + 1;
        } else {
          kept := kept + 1;
        }
        i := i + 1;
        collected := Collected(player, snapshot[..i], maskHit);
        missed := Missed(player, snapshot[..i], maskHit);
      }
      assert snapshot[..i] == snapshot;
      assert snapshot[i..] + spawned == spawned;
      ReplacementsBound(player, snapshot, maskHit, draw, i);
      assert bottles == missed + spawned;
      CollectedMissedPartition(player, snapshot, maskHit);
      assert missed <= bottles;
    }
  }
}
