/** The star field of the scene: a flat buffer of 3 * StarsCount coordinates
    stored as x, y, z triples. It is filled once from random draws and, once
    per frame, every x coordinate drifts left by Step and is reset to Bound
    when it falls below -Bound. Coordinates are exact reals. */
module StarField {

  /** Number of stars in the buffer. */
  const StarsCount: nat := 10000

  /** Coordinates are drawn from [-Bound, Bound); a drifting x coordinate
      that falls below -Bound is reset to exactly Bound. */
  const Bound: real := 1000.0

  /** Amount subtracted from every x coordinate once per frame. */
  const Step: real := 0.05

  /** Every draw is a value Math.random() can return. */
  predicate ValidDraws(draws: seq<real>) {
    forall j :: 0 <= j < |draws| ==> 0.0 <= draws[j] < 1.0
  }

  /** Every coordinate of the buffer lies in the half-open range [-Bound, Bound). */
  predicate InHalfOpenRange(s: seq<real>) {
    forall j :: 0 <= j < |s| ==> -Bound <= s[j] < Bound
  }

  /** Every coordinate of the buffer lies in the closed range [-Bound, Bound]. */
  predicate InClosedRange(s: seq<real>) {
    forall j :: 0 <= j < |s| ==> -Bound <= s[j] <= Bound
  }

  /** Every x coordinate (index divisible by 3) lies in [-Bound, Bound]. */
  predicate XInRange(s: seq<real>) {
    forall j :: 0 <= j < |s| && j % 3 == 0 ==> -Bound <= s[j] <= Bound
  }

  /** The coordinate made from one draw r: r * 2000 - 1000. It lies in
      [-Bound, Bound) exactly when the draw lies in [0, 1). */
  function Coordinate(r: real): (c: real)
    ensures 0.0 <= r < 1.0 <==> -Bound <= c < Bound
  {
    r * 2000.0 - 1000.0
  }

  /** The buffer the initialisation loop fills: the coordinate at index j is
      made from the j-th draw (x, y and z of star i use draws 3i, 3i+1, 3i+2). */
  function InitialPositions(draws: seq<real>): (t: seq<real>)
    ensures |t| == |draws|
    ensures forall j :: 0 <= j < |t| ==> t[j] == Coordinate(draws[j])
    ensures ValidDraws(draws) <==> InHalfOpenRange(t)
  {
    seq(|draws|, j requires 0 <= j < |draws| => Coordinate(draws[j]))
  }

  /** The new value of one x coordinate after a frame: moved left by Step,
      or reset to exactly Bound (no remainder kept) once below -Bound. */
  function Drift(v: real): (r: real)
    ensures v - Step >= -Bound ==> r == v - Step
    ensures v - Step < -Bound ==> r == Bound
    ensures -Bound <= v <= Bound ==> -Bound <= r <= Bound
  {
    var moved := v - Step;
    if moved < -Bound then Bound else moved
  }

  /** The indices the frame loop visits when it starts at i in a buffer of
      length n: i, i + 3, i + 6, ... below n, in increasing order. */
  function Visits(i: nat, n: nat): (v: seq<nat>)
    ensures forall a :: 0 <= a < |v| ==> v[a] == i + 3 * a && v[a] < n
    ensures forall k :: k in v <==> i <= k < n && (k - i) % 3 == 0
    decreases n - i
  {
    if i >= n then [] else [i] + Visits(i + 3, n)
  }

  /** The buffer after the frame loop has processed the x coordinates at
      indices i, i + 3, ... below |s|, one at a time in increasing order. */
  function AdvanceFrom(s: seq<real>, i: nat): (t: seq<real>)
    requires i % 3 == 0
    ensures |t| == |s|
    ensures forall j :: 0 <= j < |s| ==>
      t[j] == if i <= j && j % 3 == 0 then Drift(s[j]) else s[j]
    decreases |s| - i
  {
    if i >= |s| then s else AdvanceFrom(s[i := Drift(s[i])], i + 3)
  }

  /** The buffer after one frame: every x coordinate drifts, every y and z
      coordinate is unchanged, and the length is kept. */
  function Advanced(s: seq<real>): (t: seq<real>)
    ensures |t| == |s|
    ensures forall j :: 0 <= j < |s| && j % 3 != 0 ==> t[j] == s[j]
    ensures forall j :: 0 <= j < |s| && j % 3 == 0 ==> t[j] == Drift(s[j])
  {
    AdvanceFrom(s, 0)
  }

  /** The buffer after n frames. */
  function AdvancedN(s: seq<real>, n: nat): seq<real>
  {
    if n == 0 then s else Advanced(AdvancedN(s, n - 1))
  }

  /** One frame keeps every coordinate in [-Bound, Bound] when all of them
      start there (y and z are untouched, a reset x lands on Bound). */
  lemma AdvancedStaysInClosedRange(s: seq<real>)
    requires InClosedRange(s)
    ensures InClosedRange(Advanced(s))
  {
  }

  /** Any number of frames keeps the length and every y and z coordinate. */
  lemma {:induction false} AdvancedNKeepsYZ(s: seq<real>, n: nat)
    ensures |AdvancedN(s, n)| == |s|
    ensures forall j :: 0 <= j < |s| && j % 3 != 0 ==> AdvancedN(s, n)[j] == s[j]
  {
    if n > 0 {
      AdvancedNKeepsYZ(s, n - 1);
    }
  }

  /** Bounds invariant: when every x coordinate starts in [-Bound, Bound],
      every x coordinate is still there after any number of frames. */
  lemma {:induction false} AdvancedNStaysInRange(s: seq<real>, n: nat)
    requires XInRange(s)
    ensures XInRange(AdvancedN(s, n))
  {
    if n > 0 {
      AdvancedNStaysInRange(s, n - 1);
    }
  }

  /** Between resets an x coordinate moves left by exactly Step per frame:
      if it is still at or above -Bound after n steps, no reset happened. */
  lemma {:induction false} DriftWithoutReset(s: seq<real>, n: nat, j: nat)
    requires j < |s| && j % 3 == 0
    requires s[j] - (n as real) * Step >= -Bound
    ensures |AdvancedN(s, n)| == |s|
    ensures AdvancedN(s, n)[j] == s[j] - (n as real) * Step
  {
    AdvancedNKeepsYZ(s, n);
    if n > 0 {
      DriftWithoutReset(s, n - 1, j);
    }
  }

  /** The reset is not arithmetic modulo the 2 * Bound span: an x coordinate
      just above -Bound lands on exactly Bound, not on v - Step + 2 * Bound. */
  lemma ResetDiscardsRemainder(v: real)
    requires -Bound - Step < v - Step < -Bound
    ensures Drift(v) == Bound
    ensures Drift(v) != v - Step + 2.0 * Bound
  {
  }

  /** The half-open range of the initial buffer is not kept by a frame:
      a star at x = -999.99 is reset to x = Bound. */
  lemma HalfOpenRangeNotKept()
    ensures InHalfOpenRange([-999.99, 0.0, 0.0])
    ensures !InHalfOpenRange(Advanced([-999.99, 0.0, 0.0]))
  {
    assert Advanced([-999.99, 0.0, 0.0])[0] == Bound;
  }

  /** The initialisation loop: fills a fresh buffer of 3 * StarsCount
      coordinates by index, star by star, from the draws in order. */
  method InitPositions(draws: seq<real>) returns (positions: array<real>)
    requires |draws| == 3 * StarsCount
    ensures fresh(positions)
    ensures positions[..] == InitialPositions(draws)
  {
    positions := new real[3 * StarsCount];
    for i := 0 to StarsCount
      invariant forall j :: 0 <= j < 3 * i ==> positions[j] == Coordinate(draws[j])
    {
      positions[i * 3] := Coordinate(draws[i * 3]);
      positions[i * 3 + 1] := Coordinate(draws[i * 3 + 1]);
      positions[i * 3 + 2] := Coordinate(draws[i * 3 + 2]);
    }
  }

  /** One frame of the star field, in place: walks the buffer in strides of
      3 and moves each x coordinate left by Step, resetting it to Bound when
      it falls below -Bound. The ghost result is the sequence of indices
      visited. */
  method AnimateStars(positions: array<real>) returns (ghost visited: seq<nat>)
    modifies positions
    ensures positions[..] == Advanced(old(positions[..]))
    ensures forall j :: 0 <= j < positions.Length && j % 3 != 0 ==> positions[j] == old(positions[j])
    ensures forall j :: 0 <= j < positions.Length && j % 3 == 0 ==> positions[j] == Drift(old(positions[j]))
    ensures visited == Visits(0, positions.Length)
  {
    var i: nat := 0;
    visited := [];
    while i < positions.Length
      invariant i % 3 == 0
      invariant AdvanceFrom(positions[..], i) == Advanced(old(positions[..]))
      invariant visited + Visits(i, positions.Length) == Visits(0, positions.Length)
      decreases positions.Length - i
    {
      ghost var before := positions[..];
      positions[i] := positions[i] - Step;
      if positions[i] < -Bound {
        positions[i] := Bound;
      }
      assert positions[..] == before[i := Drift(before[i])];
      assert Visits(i, positions.Length) == [i] + Visits(i + 3, positions.Length);
      visited := visited + [i];
      i := i + 3;
    }
  }
}
