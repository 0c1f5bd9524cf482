/**
 * `manage_random_state`: every wrapped generator restores its own state of the shared random number
 * generator before each step, so the streams do not disturb one another.
 */
module RandomStreams {
  import opened Wrappers

  /** One step of a generator: from its own and the shared state to a value (or the end) and both states. */
  type Body<!G, !R, !V> = (G, R) -> (Option<V>, G, R)

  /** A generator's own state and the random state it last left behind. */
  datatype Point<G, R> = Point(inner: G, random: R)

  function Advance<G, R, V>(body: Body<G, R, V>, p: Point<G, R>): Point<G, R> {
    var (_, inner, random) := body(p.inner, p.random);
    Point(inner, random)
  }

  /** Where a generator that nobody else disturbs is after `k` steps. */
  function After<G, R, V>(body: Body<G, R, V>, start: Point<G, R>, k: nat): Point<G, R> {
    if k == 0 then start else Advance(body, After(body, start, k - 1))
  }

  /** The `k`-th value of such a generator. */
  function ValueAt<G, R, V>(body: Body<G, R, V>, start: Point<G, R>, k: nat): Option<V> {
    var p := After(body, start, k);
    body(p.inner, p.random).0
  }

  /** The module-level generator everyone shares. */
  class Shared<R> {
    var state: R

    constructor (state: R)
      ensures this.state == state
    {
      this.state := state;
    }
  }

  /** A wrapped generator. Seeding and the first call of the function happen at the first `Next`. */
  class Managed<G, R, S, V> {
    const body: Body<G, R, V>
    const seeded: S -> R
    const seed: S
    const args: G
    var started: bool
    var inner: G
    var saved: Option<R>
    ghost var drawn: nat

    constructor (body: Body<G, R, V>, seeded: S -> R, seed: S, args: G)
      ensures Valid() && drawn == 0
      ensures this.body == body && this.seeded == seeded && this.seed == seed && this.args == args
    {
      this.body, this.seeded, this.seed, this.args := body, seeded, seed, args;
      started, inner, saved, drawn := false, args, None, 0;
    }

    ghost function Start(): Point<G, R>
    {
      Point(args, seeded(seed))
    }

    ghost predicate Valid()
      reads this
    {
      && (!started ==> drawn == 0)
      && (started ==> saved.Some? && Point(inner, saved.value) == After(body, Start(), drawn))
    }

    /** Whatever others did to the shared state, the next value is the next of this generator's own stream. */
    method Next(shared: Shared<R>) returns (v: Option<V>)
      requires Valid()
      modifies this, shared
      ensures Valid() && drawn == old(drawn) + 1
      ensures v == ValueAt(body, Start(), old(drawn))
      ensures shared.state == After(body, Start(), drawn).random
    {
      if !started {
        shared.state := seeded(seed);
        saved := Some(shared.state);
        inner := args;
        started := true;
      }
      shared.state := saved.value;
      var (result, own, random) := body(inner, shared.state);
      inner, shared.state := own, random;
      saved := Some(shared.state);
      drawn := drawn + 1;
      v := result;
    }
  }

  /******* Any interleaving *******/

  /** A wrapped generator on values: its stream, and how far it was read. */
  datatype Stream<!G, !R, !V> = Stream(body: Body<G, R, V>, start: Point<G, R>, at: Option<Point<G, R>>)

  /** Either somebody reads from stream `i`, or other code leaves the shared state as `to`. */
  datatype Use<R> = Draw(i: nat) | Foreign(to: R)

  datatype World<!G, !R, !V> = World(shared: R, streams: seq<Stream<G, R, V>>)

  predicate Possible<G, R, V>(w: World<G, R, V>, use: Use<R>) {
    use.Draw? ==> use.i < |w.streams|
  }

  /** One use, step by step as the wrapper does it: restore, run, save. */
  function UseOnce<G, R, V>(w: World<G, R, V>, use: Use<R>): (World<G, R, V>, Option<Option<V>>)
    requires Possible(w, use)
  {
    match use
    case Foreign(to) => (World(to, w.streams), None)
    case Draw(i) =>
      var s := w.streams[i];
      var restored := if s.at.Some? then s.at.value else s.start;
      var (v, inner, random) := s.body(restored.inner, restored.random);
      (World(random, w.streams[i := s.(at := Some(Point(inner, random)))]), Some(v))
  }

  ghost predicate AllPossible<G(!new), R(!new), V(!new)>(w: World<G, R, V>, uses: seq<Use<R>>)
    decreases |uses|
  {
    uses == [] || (Possible(w, uses[0]) && AllPossible(UseOnce(w, uses[0]).0, uses[1..]))
  }

  /** The values read from stream `i`, in order. */
  ghost function Outputs<G(!new), R(!new), V(!new)>(w: World<G, R, V>, uses: seq<Use<R>>, i: nat): seq<Option<V>>
    requires AllPossible(w, uses)
    decreases |uses|
  {
    if uses == [] then []
    else
      var (next, v) := UseOnce(w, uses[0]);
      (if uses[0] == Draw(i) then [v.value] else []) + Outputs(next, uses[1..], i)
  }

  /** Stream `i` of the world has been read `k` times. */
  ghost predicate ReadTimes<G, R, V>(s: Stream<G, R, V>, k: nat) {
    if k == 0 then s.at == None || s.at == Some(s.start) else s.at == Some(After(s.body, s.start, k))
  }

  /**
   * Whatever the interleaving with the other streams and with foreign uses of the shared state, the
   * values read from a stream are the consecutive values of its own undisturbed run.
   */
  lemma {:induction false} StreamsDoNotInterfere<G(!new), R(!new), V(!new)>(w: World<G, R, V>, uses: seq<Use<R>>, i: nat, k: nat)
    requires AllPossible(w, uses) && i < |w.streams| && ReadTimes(w.streams[i], k)
    ensures forall j :: 0 <= j < |Outputs(w, uses, i)| ==>
              Outputs(w, uses, i)[j] == ValueAt(w.streams[i].body, w.streams[i].start, k + j)
    decreases |uses|
  {
    if uses == [] {
    } else {
      var s := w.streams[i];
      var (next, v) := UseOnce(w, uses[0]);
      var drawn := if uses[0] == Draw(i) then 1 else 0;
      assert next.streams[i].body == s.body && next.streams[i].start == s.start;
      assert ReadTimes(next.streams[i], k + drawn);
      StreamsDoNotInterfere(next, uses[1..], i, k + drawn);
      forall j | 0 <= j < |Outputs(w, uses, i)|
        ensures Outputs(w, uses, i)[j] == ValueAt(s.body, s.start, k + j)
      {
        if j >= drawn {
          assert Outputs(w, uses, i)[j] == Outputs(next, uses[1..], i)[j - drawn];
        }
      }
    }
  }

  /**
   * Code outside the wrappers is not shielded: after a draw the shared state is the one the drawn
   * generator left, whatever it was before.
   */
  lemma SharedStateIsOverwritten<G, R, V>(w: World<G, R, V>, other: R, i: nat)
    requires i < |w.streams|
    ensures UseOnce(w, Draw(i)).0.shared == UseOnce(w.(shared := other), Draw(i)).0.shared
  {
  }
}
