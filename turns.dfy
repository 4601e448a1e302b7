/**
  Turn order: `next_turn` walks forward around the table of teams, skipping (and
  clearing the flag of) every team whose skip-next-turn flag is set, and gives up
  after one full lap.
 */
module Turns {

  /** The seat `j` places after `start` around a table of `n` seats (`j == n` is `start` again). */
  function Seat(n: nat, start: nat, j: nat): (s: nat)
    requires start < n && j <= n
    ensures s < n
  {
    if start + j < n then start + j else start + j - n
  }

  /** How many places after `start` seat `i` sits: between 1 and `n`, `n` for `start` itself. */
  function Offset(n: nat, start: nat, i: nat): (d: nat)
    requires start < n && i < n
    ensures 1 <= d <= n
  {
    if i > start then i - start else i + n - start
  }

  /** Seat and Offset are inverse to each other on the offsets 1..n. */
  lemma SeatOffset(n: nat, start: nat, j: nat, i: nat)
    requires start < n && 1 <= j <= n && i < n
    ensures Offset(n, start, Seat(n, start, j)) == j
    ensures Seat(n, start, Offset(n, start, i)) == i
  {
  }

  /**
    The number of flagged teams the scan passes over when it has already passed
    `a`: it stops at the first unflagged seat, or after a full lap.
   */
  function Attempts(skip: seq<bool>, start: nat, a: nat): (r: nat)
    requires start < |skip| && a <= |skip|
    ensures a <= r <= |skip|
    decreases |skip| - a
  {
    if a == |skip| then a
    else if skip[Seat(|skip|, start, a + 1)] then Attempts(skip, start, a + 1)
    else a
  }

  /** The flags once the teams at offsets 1..a have had theirs cleared. */
  function ClearedUpTo(skip: seq<bool>, start: nat, a: nat): (r: seq<bool>)
    requires start < |skip|
    ensures |r| == |skip|
  {
    seq(|skip|, i requires 0 <= i < |skip| => skip[i] && Offset(|skip|, start, i) > a)
  }

  /** The team whose turn it is after `next_turn` from seat `start`. */
  function NextSeat(skip: seq<bool>, start: nat): (r: nat)
    requires start < |skip|
    ensures r < |skip|
  {
    var a := Attempts(skip, start, 0);
    if a < |skip| then Seat(|skip|, start, a + 1) else start
  }

  /** The skip flags after `next_turn` from seat `start`. */
  function FlagsAfter(skip: seq<bool>, start: nat): (r: seq<bool>)
    requires start < |skip|
    ensures |r| == |skip|
  {
    ClearedUpTo(skip, start, Attempts(skip, start, 0))
  }

  /** Everything from `a` up to where the scan stops was flagged, and the scan stops at an unflagged seat. */
  lemma {:induction false} AttemptsPassFlagged(skip: seq<bool>, start: nat, a: nat)
    requires start < |skip| && a <= |skip|
    ensures forall j :: a < j <= Attempts(skip, start, a) ==> skip[Seat(|skip|, start, j)]
    ensures Attempts(skip, start, a) < |skip| ==> !skip[Seat(|skip|, start, Attempts(skip, start, a) + 1)]
    decreases |skip| - a
  {
    if a < |skip| && skip[Seat(|skip|, start, a + 1)] {
      AttemptsPassFlagged(skip, start, a + 1);
    }
  }

  /**
    `next_turn` passes over exactly the flagged teams that come before the first
    unflagged one (in cyclic order after the current team), lands on that team,
    clears the flags of the teams it passed and leaves every other flag as it was.
    The team it lands on ends unflagged: it keeps its own clear flag, or, when
    every team was flagged and the lap came back to the start, had it cleared.
   */
  lemma NextTurnSkipsFlagged(skip: seq<bool>, start: nat)
    requires start < |skip|
    ensures var r := NextSeat(skip, start); var n := |skip|;
      && (r != start ==> !skip[r])
      && (forall i :: 0 <= i < n && Offset(n, start, i) < Offset(n, start, r) ==> skip[i] && !FlagsAfter(skip, start)[i])
      && (forall i :: 0 <= i < n && Offset(n, start, i) > Offset(n, start, r) ==> FlagsAfter(skip, start)[i] == skip[i])
      && !FlagsAfter(skip, start)[r]
      && ((exists i :: 0 <= i < n && !skip[i]) ==> FlagsAfter(skip, start)[r] == skip[r])
  {
    var n := |skip|;
    var a := Attempts(skip, start, 0);
    var r := NextSeat(skip, start);
    AttemptsPassFlagged(skip, start, 0);
    if a < n {
      SeatOffset(n, start, a + 1, 0);
      assert Offset(n, start, r) == a + 1;
    }
    forall i | 0 <= i < n && Offset(n, start, i) <= a
      ensures skip[i]
    {
      SeatOffset(n, start, 1, i);
    }
  }

  /**
    When some team is unflagged the turn goes to an unflagged team; when every team
    is flagged the turn comes back to the team that ended it and every flag is cleared.
   */
  lemma NextTurnOutcome(skip: seq<bool>, start: nat)
    requires start < |skip|
    ensures (exists i :: 0 <= i < |skip| && !skip[i]) ==> !skip[NextSeat(skip, start)]
    ensures (forall i :: 0 <= i < |skip| ==> skip[i]) ==>
      NextSeat(skip, start) == start && forall i :: 0 <= i < |skip| ==> !FlagsAfter(skip, start)[i]
  {
    var n := |skip|;
    var a := Attempts(skip, start, 0);
    AttemptsPassFlagged(skip, start, 0);
    if a == n {
      // every seat was passed, so every seat was flagged
      forall i | 0 <= i < n ensures skip[i] {
        SeatOffset(n, start, 1, i);
      }
      if start < n && !skip[start] {
        assert false;
      }
    }
  }

  /** Moving `current_idx` on by one (`(idx + 1) % n`) reaches the next seat of the lap. */
  lemma SeatStep(n: nat, start: nat, a: nat)
    requires start < n && a < n
    ensures (Seat(n, start, a) + 1) % n == Seat(n, start, a + 1)
  {
    var s := Seat(n, start, a);
    if s + 1 < n {
      assert (s + 1) % n == s + 1;
    } else {
      assert s + 1 == n;
    }
  }

  /** Nothing is cleared before the scan starts. */
  lemma ClearedNothing(skip: seq<bool>, start: nat)
    requires start < |skip|
    ensures ClearedUpTo(skip, start, 0) == skip
  {
  }

  /** Clearing the flag of the next seat extends the cleared range by one. */
  lemma ClearNext(skip: seq<bool>, start: nat, a: nat)
    requires start < |skip| && a < |skip|
    ensures ClearedUpTo(skip, start, a)[Seat(|skip|, start, a + 1) := false] == ClearedUpTo(skip, start, a + 1)
    ensures ClearedUpTo(skip, start, a)[Seat(|skip|, start, a + 1)] == skip[Seat(|skip|, start, a + 1)]
  {
    var n := |skip|;
    var s := Seat(n, start, a + 1);
    SeatOffset(n, start, a + 1, 0);
    forall i | 0 <= i < n && i != s
      ensures Offset(n, start, i) != a + 1
    {
      SeatOffset(n, start, 1, i);
    }
  }

  /**
    `next_turn`'s loop: advance `current_idx` one seat at a time, clearing and
    counting each flagged team, until an unflagged team is reached or every seat
    has been tried.
   */
  method ScanTurn(skip: seq<bool>, start: nat) returns (idx: nat, flags: seq<bool>)
    requires start < |skip|
    ensures idx == NextSeat(skip, start)
    ensures flags == FlagsAfter(skip, start)
  {
    var n := |skip|;
    idx := start;
    flags := skip;
    var attempts := 0;
    ClearedNothing(skip, start);
    while attempts < n
      invariant attempts <= n
      invariant idx == Seat(n, start, attempts)
      invariant flags == ClearedUpTo(skip, start, attempts)
      invariant Attempts(skip, start, attempts) == Attempts(skip, start, 0)
      decreases n - attempts
    {
      SeatStep(n, start, attempts);
      idx := (idx + 1) % n;
      ClearNext(skip, start, attempts);
      if flags[idx] {
        flags := flags[idx := false];
        attempts := attempts + 1;
        continue;
      }
      assert Attempts(skip, start, attempts) == attempts;
      return;
    }
  }
}
