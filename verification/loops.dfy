/**
 The shape of main's read loop in cmd/main.go, apart from what one line
 does: lines are handled one after another, each from the state the last
 one left, until the input ends or a line stops the program.
 */
module Loops {

  /**
   Handle the lines in order until they run out or a step satisfies stop
   (that step is recorded, and no later line is read).
   */
  function Loop<S, I, T>(step: (S, I) -> (S, T), stop: T -> bool, s: S, inputs: seq<I>): (r: (S, seq<T>))
    ensures |r.1| <= |inputs|
    decreases |inputs|
  {
    if inputs == [] then (s, [])
    else
      var (s1, first) := step(s, inputs[0]);
      if stop(first) then (s1, [first])
      else
        var (s2, steps) := Loop(step, stop, s1, inputs[1..]);
        (s2, [first] + steps)
  }

  /**
   One step per line read; no step before the last one stops; the loop ends
   early only on a stopping step; and the first step is the first line's.
   */
  lemma {:induction false} LoopShape<S, I, T>(step: (S, I) -> (S, T), stop: T -> bool, s: S, inputs: seq<I>)
    ensures var r := Loop(step, stop, s, inputs);
      && (forall i :: 0 <= i < |r.1| - 1 ==> !stop(r.1[i]))
      && (|r.1| < |inputs| ==> |r.1| > 0 && stop(r.1[|r.1| - 1]))
      && (inputs != [] ==> |r.1| > 0 && r.1[0] == step(s, inputs[0]).1)
    decreases |inputs|
  {
    if inputs != [] && !stop(step(s, inputs[0]).1) {
      var first := step(s, inputs[0]).1;
      var rest := Loop(step, stop, step(s, inputs[0]).0, inputs[1..]);
      LoopShape(step, stop, step(s, inputs[0]).0, inputs[1..]);
      var r := Loop(step, stop, s, inputs);
      assert r.1 == [first] + rest.1;
      forall i | 0 <= i < |r.1| - 1 ensures !stop(r.1[i]) {
        if i > 0 {
          assert r.1[i] == rest.1[i - 1];
        }
      }
    }
  }

  /** A line that does not stop hands its state on to the rest of the lines. */
  lemma LoopCons<S, I, T>(step: (S, I) -> (S, T), stop: T -> bool, s: S, inputs: seq<I>)
    requires inputs != [] && !stop(step(s, inputs[0]).1)
    ensures var rest := Loop(step, stop, step(s, inputs[0]).0, inputs[1..]);
      Loop(step, stop, s, inputs) == (rest.0, [step(s, inputs[0]).1] + rest.1)
  {
  }

  /** Lines that run through without stopping: so do all but the first, from the first's state. */
  lemma RunsThroughTail<S, I, T>(step: (S, I) -> (S, T), stop: T -> bool, s: S, a: seq<I>)
    requires a != []
    requires |Loop(step, stop, s, a).1| == |a|
    requires forall i :: 0 <= i < |a| ==> !stop(Loop(step, stop, s, a).1[i])
    ensures !stop(step(s, a[0]).1)
    ensures var rest := Loop(step, stop, step(s, a[0]).0, a[1..]);
      && Loop(step, stop, s, a) == (rest.0, [step(s, a[0]).1] + rest.1)
      && |rest.1| == |a[1..]|
      && forall i :: 0 <= i < |a[1..]| ==> !stop(rest.1[i])
  {
    var ra := Loop(step, stop, s, a);
    LoopShape(step, stop, s, a);
    LoopCons(step, stop, s, a);
    var rest := Loop(step, stop, step(s, a[0]).0, a[1..]);
    forall i | 0 <= i < |a[1..]| ensures !stop(rest.1[i]) {
      assert rest.1[i] == ra.1[i + 1];
    }
  }

  /**
   Running a + b is running a and then b from the state a left behind,
   provided a ran to its end without stopping: each line sees the state of
   the line before.
   */
  lemma {:induction false} LoopAppend<S, I, T>(step: (S, I) -> (S, T), stop: T -> bool, s: S, a: seq<I>, b: seq<I>)
    requires |Loop(step, stop, s, a).1| == |a|
    requires forall i :: 0 <= i < |a| ==> !stop(Loop(step, stop, s, a).1[i])
    ensures var ra := Loop(step, stop, s, a);
      var rb := Loop(step, stop, ra.0, b);
      Loop(step, stop, s, a + b) == (rb.0, ra.1 + rb.1)
    decreases |a|
  {
    if a == [] {
      assert a + b == b;
      assert [] + Loop(step, stop, s, b).1 == Loop(step, stop, s, b).1;
    } else {
      RunsThroughTail(step, stop, s, a);
      var s1, first := step(s, a[0]).0, step(s, a[0]).1;
      LoopAppend(step, stop, s1, a[1..], b);
      var ab := a + b;
      assert ab[0] == a[0] && ab[1..] == a[1..] + b;
      LoopCons(step, stop, s, ab);
      var rest := Loop(step, stop, s1, a[1..]);
      var rb := Loop(step, stop, rest.0, b);
      assert [first] + (rest.1 + rb.1) == ([first] + rest.1) + rb.1;
    }
  }

  /** A property every step keeps from its state to the next is kept by the whole loop. */
  lemma {:induction false} LoopKeeps<S(!new), I(!new), T>(step: (S, I) -> (S, T), stop: T -> bool, keeps: (S, S) -> bool, s: S, inputs: seq<I>)
    requires forall x: S :: keeps(x, x)
    requires forall x: S, y: S, z: S :: keeps(x, y) && keeps(y, z) ==> keeps(x, z)
    requires forall x: S, i: I :: keeps(x, step(x, i).0)
    ensures keeps(s, Loop(step, stop, s, inputs).0)
    decreases |inputs|
  {
    if inputs != [] {
      var s1 := step(s, inputs[0]).0;
      if !stop(step(s, inputs[0]).1) {
        LoopKeeps(step, stop, keeps, s1, inputs[1..]);
      }
    }
  }
}
