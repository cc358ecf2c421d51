/**
 * The forced-repeat queue of a card set: a FIFO of keys with countdowns.
 * Each draw first decrements every countdown and, when the front one has
 * reached zero, dequeues that key and returns it instead of a random card.
 */
module Forcing {
  import opened Optional

  /** The countdown a forced key starts with (the default of `KeyCounter.counter`). */
  const ForcedDelay: int := 10

  datatype KeyCounter = KeyCounter(key: string, counter: int)

  /** What the queue part of one draw leaves behind, and the key it returns, if any. */
  datatype Draw = Draw(queue: seq<KeyCounter>, fired: Option<string>)

  /** Every countdown lowered by one, keys and order kept. */
  function Decremented(q: seq<KeyCounter>): (r: seq<KeyCounter>)
    ensures |r| == |q|
  {
    seq(|q|, i requires 0 <= i < |q| => KeyCounter(q[i].key, q[i].counter - 1))
  }

  /** The queue part of `getNext()`: decrement all, and dequeue the front if it hit zero. */
  function Tick(q: seq<KeyCounter>): (d: Draw)
    ensures |d.queue| + (if d.fired.Some? then 1 else 0) == |q|
    ensures d.fired.Some? ==> q != [] && q[0].counter == 1 && d.fired.value == q[0].key
  {
    var lowered := Decremented(q);
    if q != [] && lowered[0].counter == 0 then Draw(lowered[1..], Some(lowered[0].key))
    else Draw(lowered, None)
  }

  /** One practice round: an optional `ForcePair` of `push`, then the draw. */
  function Step(q: seq<KeyCounter>, push: Option<string>): (d: Draw)
    ensures |d.queue| + (if d.fired.Some? then 1 else 0) == |q| + (if push.Some? then 1 else 0)
  {
    Tick(if push.Some? then q + [KeyCounter(push.value, ForcedDelay)] else q)
  }

  /** The keys the queue returns over a run of rounds, one entry per draw. */
  function Run(q: seq<KeyCounter>, pushes: seq<Option<string>>): (fired: seq<Option<string>>)
    ensures |fired| == |pushes|
    decreases |pushes|
  {
    if pushes == [] then []
    else
      var d := Step(q, pushes[0]);
      [d.fired] + Run(d.queue, pushes[1..])
  }

  /**
   * The queue shape that one push per draw keeps: countdowns strictly
   * increase from front to back and lie between 1 and `hi`.
   */
  ghost predicate Staggered(q: seq<KeyCounter>, hi: int)
  {
    && (forall i :: 0 <= i < |q| ==> 1 <= q[i].counter <= hi)
    && (forall i, j :: 0 <= i < j < |q| ==> q[i].counter < q[j].counter)
  }

  /** A draw takes a staggered queue with countdowns up to 10 to one with countdowns up to 9. */
  lemma TickSettles(q: seq<KeyCounter>)
    requires Staggered(q, ForcedDelay)
    ensures Staggered(Tick(q).queue, ForcedDelay - 1)
  {
    var lowered := Decremented(q);
    if q != [] && lowered[0].counter == 0 {
      var rest := lowered[1..];
      forall i | 0 <= i < |rest|
        ensures 1 <= rest[i].counter
      {
        assert rest[i] == lowered[i + 1];
        assert q[0].counter < q[i + 1].counter;
      }
    } else if q != [] {
      forall i | 0 <= i < |q|
        ensures 1 <= lowered[i].counter
      {
        if i > 0 {
          assert q[0].counter < q[i].counter;
        }
      }
    }
  }

  /** A new forced key joins a settled queue at the back without breaking the stagger. */
  lemma PushStaggered(q: seq<KeyCounter>, key: string)
    requires Staggered(q, ForcedDelay - 1)
    ensures Staggered(q + [KeyCounter(key, ForcedDelay)], ForcedDelay)
  {
  }

  lemma StepSettles(q: seq<KeyCounter>, push: Option<string>)
    requires Staggered(q, ForcedDelay - 1)
    ensures Staggered(Step(q, push).queue, ForcedDelay - 1)
  {
    var q' := if push.Some? then q + [KeyCounter(push.value, ForcedDelay)] else q;
    if push.Some? {
      PushStaggered(q, push.value);
    }
    TickSettles(q');
  }

  /** In a staggered queue only the front can have countdown 1, so it is the one that fires. */
  lemma TickFires(q: seq<KeyCounter>, i: nat)
    requires Staggered(q, ForcedDelay) && i < |q| && q[i].counter == 1
    ensures Tick(q).fired == Some(q[i].key)
  {
    assert 1 <= q[0].counter;
  }

  /** An entry that does not fire moves up by at most one place, one count closer. */
  lemma TickMoves(q: seq<KeyCounter>, i: nat) returns (j: nat)
    requires Staggered(q, ForcedDelay) && i < |q| && q[i].counter > 1
    ensures j < |Tick(q).queue| && Tick(q).queue[j] == KeyCounter(q[i].key, q[i].counter - 1)
  {
    var lowered := Decremented(q);
    if lowered[0].counter == 0 {
      j := i - 1;
      assert Tick(q).queue[j] == lowered[i];
    } else {
      j := i;
    }
  }

  /**
   * In a settled queue, the entry with countdown c is returned by the c-th
   * draw from now, whatever is pushed meanwhile (at most one push per draw).
   */
  lemma {:induction false} FiresOnTime(q: seq<KeyCounter>, i: nat, pushes: seq<Option<string>>)
    requires Staggered(q, ForcedDelay - 1)
    requires i < |q| && q[i].counter <= |pushes|
    ensures Run(q, pushes)[q[i].counter - 1] == Some(q[i].key)
    decreases |pushes|
  {
    var q' := if pushes[0].Some? then q + [KeyCounter(pushes[0].value, ForcedDelay)] else q;
    if pushes[0].Some? {
      PushStaggered(q, pushes[0].value);
    }
    assert q'[i] == q[i];
    var d := Step(q, pushes[0]);
    assert d == Tick(q');
    assert Run(q, pushes) == [d.fired] + Run(d.queue, pushes[1..]);
    if q[i].counter == 1 {
      TickFires(q', i);
    } else {
      TickSettles(q');
      var j := TickMoves(q', i);
      var rest := d.queue;
      assert Staggered(rest, ForcedDelay - 1);
      assert rest[j].counter == q[i].counter - 1 <= |pushes[1..]|;
      FiresOnTime(rest, j, pushes[1..]);
      assert Run(rest, pushes[1..])[rest[j].counter - 1] == Some(q[i].key);
    }
  }

  /**
   * A key forced right before a draw, into a settled queue, is returned by
   * the tenth draw counting that one.
   */
  lemma ForcedReturnsOnTenthDraw(q: seq<KeyCounter>, key: string, pushes: seq<Option<string>>)
    requires Staggered(q, ForcedDelay - 1)
    requires |pushes| >= ForcedDelay && pushes[0] == Some(key)
    ensures Run(q, pushes)[ForcedDelay - 1] == Some(key)
  {
    var q' := q + [KeyCounter(key, ForcedDelay)];
    PushStaggered(q, key);
    var d := Step(q, pushes[0]);
    assert d == Tick(q');
    TickSettles(q');
    var j := TickMoves(q', |q|);
    FiresOnTime(d.queue, j, pushes[1..]);
  }

  /**
   * The queue fires only on a countdown of exactly zero: once the front entry
   * is at or below zero, no later draw returns a forced key.
   */
  lemma {:induction false} JammedQueueNeverFires(q: seq<KeyCounter>, pushes: seq<Option<string>>)
    requires q != [] && q[0].counter <= 0
    ensures forall t :: 0 <= t < |pushes| ==> Run(q, pushes)[t] == None
    decreases |pushes|
  {
    if pushes != [] {
      var q' := if pushes[0].Some? then q + [KeyCounter(pushes[0].value, ForcedDelay)] else q;
      assert q'[0] == q[0];
      var d := Step(q, pushes[0]);
      assert d.fired == None && d.queue[0].counter == q[0].counter - 1;
      JammedQueueNeverFires(d.queue, pushes[1..]);
    }
  }

  /** A lone forced key counts down and fires when its countdown reaches zero. */
  lemma TickSingle(key: string, counter: int)
    ensures counter == 1 ==> Tick([KeyCounter(key, counter)]) == Draw([], Some(key))
    ensures counter != 1 ==> Tick([KeyCounter(key, counter)]) == Draw([KeyCounter(key, counter - 1)], None)
  {
    assert Decremented([KeyCounter(key, counter)]) == [KeyCounter(key, counter - 1)];
  }

  /** Two keys forced before one draw share a countdown, and the second one jams the queue. */
  lemma DoublePushJams(a: string, b: string)
    ensures Tick([KeyCounter(a, 1), KeyCounter(b, 1)]) == Draw([KeyCounter(b, 0)], Some(a))
    ensures Tick([KeyCounter(b, 0)]) == Draw([KeyCounter(b, -1)], None)
  {
  }
}
