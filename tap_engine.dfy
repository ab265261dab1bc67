/** The tap/energy state machine of the game screen: the three pieces of
    component state (`points`, `energy`, `clicks`) and the three transitions
    that change them during play (a tap on the coin, a regeneration tick and
    the end of a "+12" marker's animation). Everything here is a value; the
    component that holds the state is `AppState.App`. */
module TapEngine {

  /** Points earned by one accepted tap (`pointsToAdd`). */
  const PointsPerTap: int := 12
  /** Energy spent by one accepted tap (`energyToReduce`). */
  const EnergyPerTap: int := 12
  /** The cap of the regeneration tick and the full width of the energy bar. */
  const EnergyMax: int := 6500

  /** A floating "+12" marker: its id (the tap's timestamp) and the tap's
      position relative to the coin. */
  datatype Click = Click(id: int, x: int, y: int)

  /** The component state the handlers read and write. */
  datatype Game = Game(points: int, energy: int, clicks: seq<Click>)

  /** The invariant of play: energy never leaves `[0, EnergyMax]`. */
  predicate EnergyInRange(energy: int) {
    0 <= energy <= EnergyMax
  }

  /** The tap guard as the handler writes it: `energy - energyToReduce < 0`
      rejects the tap. */
  predicate Rejected(energy: int) {
    energy - EnergyPerTap < 0
  }

  /** The new energy of a tap, with the handler's `< 0 ? 0` clamp. */
  function Drained(energy: int): (r: int)
    ensures r >= 0
    ensures !Rejected(energy) ==> r == energy - EnergyPerTap && r < energy
    ensures Rejected(energy) ==> r == 0
  {
    if energy - EnergyPerTap < 0 then 0 else energy - EnergyPerTap
  }

  /** One tap at `(x, y)` with timestamp `id`, when the store write (if any)
      succeeds. */
  function Tap(g: Game, id: int, x: int, y: int): (r: Game)
    ensures g.energy < EnergyPerTap ==> r == g
    ensures g.energy >= EnergyPerTap ==>
              && r.points == g.points + PointsPerTap
              && r.energy == g.energy - EnergyPerTap
              && |r.clicks| == |g.clicks| + 1
              && r.clicks[..|g.clicks|] == g.clicks
              && r.clicks[|g.clicks|] == Click(id, x, y)
    ensures EnergyInRange(g.energy) ==> EnergyInRange(r.energy)
  {
    if Rejected(g.energy) then g
    else Game(g.points + PointsPerTap, Drained(g.energy), g.clicks + [Click(id, x, y)])
  }

  /** One regeneration tick: `Math.min(prevEnergy + 1, 6500)`. */
  function Regenerate(energy: int): (r: int)
    ensures r <= EnergyMax
    ensures energy < EnergyMax ==> r == energy + 1
    ensures energy >= EnergyMax ==> r == EnergyMax
    ensures EnergyInRange(energy) ==> EnergyInRange(r)
  {
    if energy + 1 <= EnergyMax then energy + 1 else EnergyMax
  }

  /** The markers left when the animation of marker `k` ends:
      `prevClicks.filter(click => click.id !== k)`. */
  function Expire(clicks: seq<Click>, k: int): (r: seq<Click>)
    ensures |r| <= |clicks|
    ensures forall c :: c in r <==> c in clicks && c.id != k
  {
    if clicks == [] then []
    else if clicks[0].id == k then Expire(clicks[1..], k)
    else [clicks[0]] + Expire(clicks[1..], k)
  }

  /** Filtering splits over concatenation: the kept markers of two segments
      appear in their segments' order. */
  lemma {:induction false} ExpireAppend(a: seq<Click>, b: seq<Click>, k: int)
    ensures Expire(a + b, k) == Expire(a, k) + Expire(b, k)
  {
    if a == [] {
      assert a + b == b;
    } else {
      assert (a + b)[0] == a[0];
      assert (a + b)[1..] == a[1..] + b;
      ExpireAppend(a[1..], b, k);
    }
  }

  /** Expiring an id no marker carries changes nothing. */
  lemma {:induction false} ExpireAbsent(clicks: seq<Click>, k: int)
    requires forall i :: 0 <= i < |clicks| ==> clicks[i].id != k
    ensures Expire(clicks, k) == clicks
  {
    if clicks != [] {
      ExpireAbsent(clicks[1..], k);
      assert [clicks[0]] + clicks[1..] == clicks;
    }
  }

  /** A marker whose id is not `k` survives, and one whose id is `k` does not:
      the filter on a single marker. Together with `ExpireAppend` this fixes
      `Expire` completely, so the survivors keep their original order. */
  lemma ExpireSingle(c: Click, k: int)
    ensures Expire([c], k) == if c.id == k then [] else [c]
  {
    assert [c][1..] == [];
  }

  /** Expiring the same id twice is the same as expiring it once. */
  lemma ExpireIdempotent(clicks: seq<Click>, k: int)
    ensures Expire(Expire(clicks, k), k) == Expire(clicks, k)
  {
    var once := Expire(clicks, k);
    forall i | 0 <= i < |once| ensures once[i].id != k {
      assert once[i] in once;
    }
    ExpireAbsent(once, k);
  }

  /** The end of two animations can be handled in either order. */
  lemma {:induction false} ExpireCommutes(clicks: seq<Click>, j: int, k: int)
    ensures Expire(Expire(clicks, j), k) == Expire(Expire(clicks, k), j)
  {
    if clicks != [] {
      ExpireCommutes(clicks[1..], j, k);
      var c := clicks[0];
      if c.id != j && c.id != k {
        assert Expire(clicks, j) == [c] + Expire(clicks[1..], j);
        assert Expire(clicks, k) == [c] + Expire(clicks[1..], k);
        assert ([c] + Expire(clicks[1..], j))[1..] == Expire(clicks[1..], j);
        assert ([c] + Expire(clicks[1..], k))[1..] == Expire(clicks[1..], k);
      } else if c.id == j && c.id != k {
        assert Expire(clicks, k) == [c] + Expire(clicks[1..], k);
        assert ([c] + Expire(clicks[1..], k))[1..] == Expire(clicks[1..], k);
      } else if c.id != j && c.id == k {
        assert Expire(clicks, j) == [c] + Expire(clicks[1..], j);
        assert ([c] + Expire(clicks[1..], j))[1..] == Expire(clicks[1..], j);
      }
    }
  }

  /** The marker a tap adds is removed by the end of its own animation, and
      only the older markers with the same id go with it; a rejected tap adds
      no marker, so the same holds for every tap. */
  lemma TapThenExpire(g: Game, id: int, x: int, y: int)
    ensures Expire(Tap(g, id, x, y).clicks, id) == Expire(g.clicks, id)
  {
    if !Rejected(g.energy) {
      ExpireAppend(g.clicks, [Click(id, x, y)], id);
      ExpireSingle(Click(id, x, y), id);
    }
  }

  /** What can happen during play, in any interleaving. */
  datatype Event = TapAt(id: int, x: int, y: int) | Tick | AnimationEnd(id: int)

  function Step(g: Game, e: Event): (r: Game)
    ensures EnergyInRange(g.energy) ==> EnergyInRange(r.energy)
    ensures r.points == g.points || r.points == g.points + PointsPerTap
    ensures |r.clicks| <= |g.clicks| + 1
  {
    match e
    case TapAt(id, x, y) => Tap(g, id, x, y)
    case Tick => g.(energy := Regenerate(g.energy))
    case AnimationEnd(id) => g.(clicks := Expire(g.clicks, id))
  }

  /** The state after the events `es`, first to last. */
  function Run(g: Game, es: seq<Event>): Game
    decreases |es|
  {
    if es == [] then g else Run(Step(g, es[0]), es[1..])
  }

  /** The energy invariant holds after any sequence of taps, ticks and
      animation ends that starts inside it; points never decrease and grow by
      whole taps only; at most one marker appears per event. */
  lemma {:induction false} RunInvariant(g: Game, es: seq<Event>)
    requires EnergyInRange(g.energy)
    ensures EnergyInRange(Run(g, es).energy)
    ensures Run(g, es).points >= g.points
    ensures (Run(g, es).points - g.points) % PointsPerTap == 0
    ensures |Run(g, es).clicks| <= |g.clicks| + |es|
    decreases |es|
  {
    if es != [] {
      RunInvariant(Step(g, es[0]), es[1..]);
    }
  }

  /** `n` regeneration ticks in a row. */
  function Ticks(n: nat): (es: seq<Event>)
    ensures |es| == n
    ensures forall i :: 0 <= i < n ==> es[i] == Tick
  {
    seq(n, i => Tick)
  }

  /** Ticks from inside the invariant add one energy each until the cap, then
      stay at the cap. */
  lemma {:induction false} TicksSaturate(g: Game, n: nat)
    requires EnergyInRange(g.energy)
    ensures Run(g, Ticks(n)).points == g.points
    ensures Run(g, Ticks(n)).clicks == g.clicks
    ensures Run(g, Ticks(n)).energy == if g.energy + n < EnergyMax then g.energy + n else EnergyMax
    decreases n
  {
    if n > 0 {
      assert Ticks(n)[1..] == Ticks(n - 1);
      TicksSaturate(g.(energy := Regenerate(g.energy)), n - 1);
    }
  }

  /** Twenty ticks from 6490 stop at 6500, not 6510. */
  lemma TicksFrom6490(g: Game)
    requires g.energy == 6490
    ensures Run(g, Ticks(20)).energy == 6500
  {
    TicksSaturate(g, 20);
  }

  /** From the signed-up counters, five taps earn 60 points, spend 60 energy
      and leave five markers in tap order. */
  lemma FiveTaps()
    ensures Run(Game(0, 2532, []), [TapAt(1, 5, 5), TapAt(2, 6, 6), TapAt(3, 7, 7), TapAt(4, 8, 8), TapAt(5, 9, 9)])
         == Game(60, 2472, [Click(1, 5, 5), Click(2, 6, 6), Click(3, 7, 7), Click(4, 8, 8), Click(5, 9, 9)])
  {
    var es := [TapAt(1, 5, 5), TapAt(2, 6, 6), TapAt(3, 7, 7), TapAt(4, 8, 8), TapAt(5, 9, 9)];
    var g0 := Game(0, 2532, []);
    var g1 := Step(g0, es[0]);
    var g2 := Step(g1, es[1]);
    var g3 := Step(g2, es[2]);
    var g4 := Step(g3, es[3]);
    var g5 := Step(g4, es[4]);
    assert Run(g0, es) == Run(g1, es[1..]);
    assert Run(g1, es[1..]) == Run(g2, es[2..]);
    assert Run(g2, es[2..]) == Run(g3, es[3..]);
    assert Run(g3, es[3..]) == Run(g4, es[4..]);
    assert Run(g4, es[4..]) == Run(g5, es[5..]);
    assert es[5..] == [];
  }

  /** With 6 energy a tap changes nothing and adds no marker. */
  lemma TapWithSixEnergy(g: Game, id: int, x: int, y: int)
    requires g.energy == 6
    ensures Tap(g, id, x, y) == g
  {
  }
}
