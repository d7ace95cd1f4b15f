/**
 When the tar reader stops. A size field may carry a sign, and a size of -512 or
 less leads back, so the reader may come to the same place again. It runs for ever
 exactly when it does: the loop's state at one header decides all that follows,
 and an archive has only finitely many such states.
 */
module TarEndless {

  import opened Objects
  import opened Options
  import opened Strings
  import opened TarArchive

  // Where the reader is after n rounds, unless it has stopped.
  function After(archive: Bytes, start: Spot, env: Env, n: nat): Option<Spot> {
    if n == 0 then Some(start)
    else
      match After(archive, start, env, n - 1)
      case None => None
      case Some(spot) =>
        match Step(archive, spot, env)
        case Go(next, _) => Some(next)
        case _ => None
  }

  ghost predicate Endless(archive: Bytes, start: Spot, env: Env) {
    forall fuel: nat :: Walk(archive, start, [], env, fuel).OutOfFuel?
  }

  // The reader is at the same place twice, with the same path set aside.
  ghost predicate ComesBack(archive: Bytes, start: Spot, env: Env) {
    exists i: nat, j: nat :: i < j && Meets(archive, start, env, i, j)
  }

  predicate Meets(archive: Bytes, start: Spot, env: Env, i: nat, j: nat) {
    After(archive, start, env, i).Some? && After(archive, start, env, i) == After(archive, start, env, j)
  }

  // ----- Fuel and rounds -----

  lemma {:induction false} AfterFirst(archive: Bytes, start: Spot, env: Env, n: nat)
    ensures After(archive, start, env, n + 1) ==
            match Step(archive, start, env)
            case Go(next, _) => After(archive, next, env, n)
            case _ => None
  {
    hide Step;
    if n > 0 {
      AfterFirst(archive, start, env, n - 1);
    } else {
      assert After(archive, start, env, 0) == Some(start);
    }
  }

  // Fuel runs out exactly when that many rounds all go on.
  lemma {:induction false} FuelIsRounds(archive: Bytes, start: Spot, done: seq<Action>, env: Env, fuel: nat)
    ensures Walk(archive, start, done, env, fuel).OutOfFuel? <==> After(archive, start, env, fuel).Some?
    decreases fuel
  {
    hide Step;
    if fuel > 0 {
      AfterFirst(archive, start, env, fuel - 1);
      match Step(archive, start, env)
      case Go(next, actions) => FuelIsRounds(archive, next, done + actions, env, fuel - 1);
      case _ =>
    }
  }

  lemma {:induction false} EarlierRounds(archive: Bytes, start: Spot, env: Env, i: nat, j: nat)
    requires i <= j && After(archive, start, env, j).Some?
    ensures After(archive, start, env, i).Some?
    decreases j
  {
    hide Step;
    if i < j {
      EarlierRounds(archive, start, env, i, j - 1);
    }
  }

  // ----- Coming back means never stopping -----

  lemma {:induction false} SameFromThere(archive: Bytes, start: Spot, env: Env, i: nat, j: nat, n: nat)
    requires After(archive, start, env, i) == After(archive, start, env, j)
    ensures After(archive, start, env, i + n) == After(archive, start, env, j + n)
  {
    hide Step;
    if n > 0 {
      SameFromThere(archive, start, env, i, j, n - 1);
    }
  }

  lemma {:induction false} NeverStops(archive: Bytes, start: Spot, env: Env, i: nat, j: nat, n: nat)
    requires i < j && Meets(archive, start, env, i, j)
    ensures After(archive, start, env, n).Some?
    decreases n
  {
    hide After;
    if n <= j {
      EarlierRounds(archive, start, env, n, j);
    } else {
      NeverStops(archive, start, env, i, j, n - (j - i));
      SameFromThere(archive, start, env, i, j, n - j);
    }
  }

  // ----- Only finitely many places -----

  // The path a header at the offset sets aside for the next entry, if it does.
  function SetAside(archive: Bytes, offset: int, env: Env): Option<string> {
    match Step(archive, Spot(offset, None), env)
    case Go(next, _) => next.pending
    case _ => None
  }

  function Range(low: int, high: int): (r: set<int>)
    requires low <= high
    ensures forall o :: o in r <==> low <= o < high
    decreases high - low
  {
    if low == high then {} else {low} + Range(low + 1, high)
  }

  function Offsets(archive: Bytes): set<int> {
    Range(-|archive| - BLOCK, |archive|)
  }

  function Paths(archive: Bytes, start: Spot, env: Env): set<Option<string>> {
    {None, start.pending} + (set o | o in Offsets(archive) :: SetAside(archive, o, env))
  }

  function Places(archive: Bytes, start: Spot, env: Env): set<Spot> {
    set o, p | o in Offsets(archive) && p in Paths(archive, start, env) :: Spot(o, p)
  }

  // A round that goes on reads a header inside the archive.
  lemma {:induction false} GoingOnIsInside(archive: Bytes, spot: Spot, env: Env)
    requires Step(archive, spot, env).Go?
    ensures spot.offset in Offsets(archive)
  {
    hide ReadHeader, PaxAttributes, ReadString, Enter, Blocks;
    assert Subarray(archive, spot.offset, spot.offset + BLOCK) != [];
  }

  // The path after a round is the one from before, none, or what this header sets aside.
  lemma {:induction false} PathAfterRound(archive: Bytes, spot: Spot, env: Env)
    requires Step(archive, spot, env).Go?
    ensures var next := Step(archive, spot, env).spot.pending;
            next == spot.pending || next == None || next == SetAside(archive, spot.offset, env)
  {
    hide ReadHeader, PaxAttributes, ReadString, Enter, Blocks, Subarray, AllZero;
  }

  lemma {:induction false} PathIsKnown(archive: Bytes, start: Spot, env: Env, n: nat)
    requires After(archive, start, env, n).Some?
    ensures After(archive, start, env, n).value.pending in Paths(archive, start, env)
  {
    hide Step, SetAside, Offsets;
    if n > 0 {
      PathIsKnown(archive, start, env, n - 1);
      var spot := After(archive, start, env, n - 1).value;
      GoingOnIsInside(archive, spot, env);
      PathAfterRound(archive, spot, env);
    }
  }

  lemma {:induction false} PlaceIsKnown(archive: Bytes, start: Spot, env: Env, n: nat)
    requires After(archive, start, env, n + 1).Some?
    ensures After(archive, start, env, n).Some? && After(archive, start, env, n).value in Places(archive, start, env)
  {
    hide Step, Paths, Offsets;
    PathIsKnown(archive, start, env, n);
    var spot := After(archive, start, env, n).value;
    GoingOnIsInside(archive, spot, env);
    assert spot == Spot(spot.offset, spot.pending);
  }

  // More elements than the set has: one of them occurs twice.
  lemma {:induction false} SomeRepeats<T>(s: seq<T>, all: set<T>) returns (i: nat, j: nat)
    requires |s| > |all| && forall k | 0 <= k < |s| :: s[k] in all
    ensures i < j < |s| && s[i] == s[j]
    decreases |s|
  {
    var last, front := s[|s| - 1], s[..|s| - 1];
    if last in front {
      j := |s| - 1;
      i :| 0 <= i < |front| && front[i] == last;
    } else {
      assert forall k | 0 <= k < |front| :: front[k] == s[k] && front[k] != last;
      i, j := SomeRepeats(front, all - {last});
    }
  }

  // After as many rounds as there are places, one of them has been seen twice.
  lemma {:induction false} LongWalkComesBack(archive: Bytes, start: Spot, env: Env, n: nat)
    requires n > |Places(archive, start, env)| && After(archive, start, env, n).Some?
    ensures ComesBack(archive, start, env)
  {
    hide After, Places;
    forall k: nat | k < n
      ensures After(archive, start, env, k).Some?
              && After(archive, start, env, k).value in Places(archive, start, env)
    {
      EarlierRounds(archive, start, env, k + 1, n);
      PlaceIsKnown(archive, start, env, k);
    }
    var spots := seq(n, k requires 0 <= k < n => After(archive, start, env, k).value);
    var i, j := SomeRepeats(spots, Places(archive, start, env));
    assert spots[i] == spots[j];
    assert Meets(archive, start, env, i, j);
  }

  // ----- Main results -----

  /** The reader runs for ever exactly when it comes to some header twice with the
      same path set aside. */
  lemma {:induction false} EndlessExactly(archive: Bytes, start: Spot, env: Env)
    ensures Endless(archive, start, env) <==> ComesBack(archive, start, env)
  {
    hide After, Places, Walk;
    if ComesBack(archive, start, env) {
      var i: nat, j: nat :| i < j && Meets(archive, start, env, i, j);
      forall fuel: nat
        ensures Walk(archive, start, [], env, fuel).OutOfFuel?
      {
        NeverStops(archive, start, env, i, j, fuel);
        FuelIsRounds(archive, start, [], env, fuel);
      }
    }
    if Endless(archive, start, env) {
      var n := |Places(archive, start, env)| + 1;
      assert Walk(archive, start, [], env, n).OutOfFuel?;
      FuelIsRounds(archive, start, [], env, n);
      LongWalkComesBack(archive, start, env, n);
    }
  }

  /** So a fuel of one more than the number of places decides it. */
  lemma {:induction false} BoundDecides(archive: Bytes, start: Spot, env: Env)
    ensures Endless(archive, start, env) <==>
            Walk(archive, start, [], env, |Places(archive, start, env)| + 1).OutOfFuel?
  {
    hide After, Places, Walk;
    var n := |Places(archive, start, env)| + 1;
    if Walk(archive, start, [], env, n).OutOfFuel? {
      FuelIsRounds(archive, start, [], env, n);
      LongWalkComesBack(archive, start, env, n);
      EndlessExactly(archive, start, env);
    }
  }

  // Every header the reader comes to has a size above -512.
  ghost predicate NoStepBack(archive: Bytes, start: Spot, env: Env) {
    forall n: nat :: HeaderForward(archive, After(archive, start, env, n), env)
  }

  predicate HeaderForward(archive: Bytes, spot: Option<Spot>, env: Env) {
    spot.Some? ==>
      var h := ReadHeader(Subarray(archive, spot.value.offset, spot.value.offset + BLOCK), env.decode);
      h.Some? ==> h.value.size > -BLOCK
  }

  lemma {:induction false} ForwardRound(archive: Bytes, spot: Spot, env: Env)
    requires Step(archive, spot, env).Go? && HeaderForward(archive, Some(spot), env)
    ensures Step(archive, spot, env).spot.offset > spot.offset
  {
    hide ReadHeader, PaxAttributes, ReadString, Enter, Subarray, AllZero;
  }

  lemma {:induction false} OffsetsGrow(archive: Bytes, start: Spot, env: Env, i: nat, j: nat)
    requires NoStepBack(archive, start, env) && i < j && After(archive, start, env, j).Some?
    ensures After(archive, start, env, i).Some?
    ensures After(archive, start, env, i).value.offset < After(archive, start, env, j).value.offset
    decreases j
  {
    hide Step, HeaderForward;
    EarlierRounds(archive, start, env, i, j);
    var before := After(archive, start, env, j - 1).value;
    assert HeaderForward(archive, After(archive, start, env, j - 1), env);
    ForwardRound(archive, before, env);
    if i < j - 1 {
      OffsetsGrow(archive, start, env, i, j - 1);
    }
  }

  /** With no size of -512 or less in a header it comes to, the reader stops. */
  lemma {:induction false} ForwardWalkStops(archive: Bytes, start: Spot, env: Env)
    requires NoStepBack(archive, start, env)
    ensures !Endless(archive, start, env)
  {
    hide After, NoStepBack;
    EndlessExactly(archive, start, env);
    if ComesBack(archive, start, env) {
      var i: nat, j: nat :| i < j && Meets(archive, start, env, i, j);
      OffsetsGrow(archive, start, env, i, j);
    }
  }
}
