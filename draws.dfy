/**
  The game's random choices, with the randomness supplied as inputs: the die
  value of `roll_dice`, the chance question of `_trigger_chance`, the wheel
  segment `_start_spin_wheel` aims for, and what a mystery card does to a token.
 */
module Draws {
  import opened Options
  import Board

  /** A value `random.randint(1, 6)` can give. */
  type Die = x: int | 1 <= x <= 6 witness 1

  /**
    The random inputs of one `roll_dice`: the three candidate rolls, which element
    `random.choice` picks, whether the 30% entropy branch fires, and the `hash`
    of the clock it adds to the history length.
   */
  datatype DiceDraw = DiceDraw(r1: Die, r2: Die, r3: Die, pick: nat, useBonus: bool, hash: int)

  /** The random inputs of one call that may roll, ask a chance question and spin the wheel. */
  datatype Draw = Draw(dice: DiceDraw, question: nat, segment: nat)

  function Rolls(dd: DiceDraw): seq<int> {
    [dd.r1 as int, dd.r2 as int, dd.r3 as int]
  }

  /** `[r for r in rolls if r != last]`. */
  function Differing(rolls: seq<int>, last: Option<int>): (r: seq<int>)
    ensures |r| <= |rolls|
    ensures forall x :: x in r <==> x in rolls && Some(x) != last
  {
    if rolls == [] then []
    else if Some(rolls[0]) != last then [rolls[0]] + Differing(rolls[1..], last)
    else Differing(rolls[1..], last)
  }

  /**
    The value `roll_dice` settles on: a candidate that differs from the previous
    roll when there is one (any candidate otherwise), unless the entropy branch
    replaces it by `(hash + len(history)) % 6 + 1`.
   */
  function ChooseDie(dd: DiceDraw, last: Option<int>, historyLen: nat): (d: int)
    ensures 1 <= d <= 6
    ensures dd.useBonus ==> d == (dd.hash + historyLen) % 6 + 1
    ensures !dd.useBonus ==> d in Rolls(dd)
    ensures !dd.useBonus && (exists r :: r in Rolls(dd) && Some(r) != last) ==> Some(d) != last
  {
    var rolls := Rolls(dd);
    var available := Differing(rolls, last);
    var choice := if available != [] then available[dd.pick % |available|] else rolls[dd.pick % 3];
    assert choice in rolls;
    if dd.useBonus then (dd.hash + historyLen) % 6 + 1 else choice
  }

  const QuestionCount: nat := 20

  /** The index of the correct option of each chance question, in deck order. */
  const ChanceAnswers: seq<nat> := [2, 3, 3, 1, 1, 2, 2, 1, 2, 2, 0, 2, 2, 0, 0, 0, 3, 1, 1, 1]

  /** No element occurs twice. */
  predicate Distinct(s: seq<nat>) {
    forall i, j :: 0 <= i < j < |s| ==> s[i] != s[j]
  }

  /** The numbers below `n` that `used` does not hold, in increasing order. */
  function Unused(used: seq<nat>, n: nat): (r: seq<nat>)
    ensures forall q: nat :: q in r <==> q < n && q !in used
    ensures Distinct(r)
    ensures forall i :: 0 <= i < |r| ==> r[i] < n
  {
    if n == 0 then []
    else if n - 1 in used then Unused(used, n - 1)
    else Unused(used, n - 1) + [n - 1]
  }

  /**
    `_trigger_chance`: a question not asked since the last reset; once all 20 have
    been asked the used list starts over with the new question.
   */
  function ChooseQuestion(used: seq<nat>, pick: nat): (r: (nat, seq<nat>))
    ensures r.0 < QuestionCount
    ensures (forall q :: 0 <= q < QuestionCount ==> q in used) ==> r.1 == [r.0]
    ensures (exists q :: 0 <= q < QuestionCount && q !in used) ==> r.0 !in used && r.1 == used + [r.0]
  {
    var available := Unused(used, QuestionCount);
    if available == [] then
      var q := pick % QuestionCount;
      (q, [q])
    else
      var q := available[pick % |available|];
      assert available[0] in available;
      (q, used + [q])
  }

  /** The used-question list stays a list of distinct question numbers, so no question repeats before all 20 have come up. */
  lemma QuestionsStayDistinct(used: seq<nat>, pick: nat)
    requires Distinct(used) && forall i :: 0 <= i < |used| ==> used[i] < QuestionCount
    ensures var r := ChooseQuestion(used, pick);
      Distinct(r.1) && forall i :: 0 <= i < |r.1| ==> r.1[i] < QuestionCount
  {
    var r := ChooseQuestion(used, pick);
    if exists q :: 0 <= q < QuestionCount && q !in used {
      assert r.1 == used + [r.0];
      assert r.0 !in used;
    }
  }

  const SegmentCount: nat := 5
  /** How many recent wheel results the spin avoids. */
  const RecencyWindow: nat := 3

  /** Python's `list.remove(x)`: drops the first occurrence of `x`. */
  function RemoveFirst(s: seq<nat>, x: nat): (r: seq<nat>)
    requires x in s
    ensures |r| == |s| - 1
    ensures Distinct(s) ==> Distinct(r) && forall y :: y in r <==> y in s && y != x
  {
    if s[0] == x then s[1..]
    else
      var rest := RemoveFirst(s[1..], x);
      assert Distinct(s) ==> Distinct(s[1..]) && s[0] !in s[1..];
      [s[0]] + rest
  }

  /**
    The first half of `_start_spin_wheel`'s choice: start from every segment and
    remove each recent result that is still present.
   */
  method AvailableSegments(recent: seq<nat>) returns (available: seq<nat>)
    ensures forall k: nat :: k in available <==> k < SegmentCount && k !in recent
    ensures Distinct(available)
    ensures |available| + |recent| >= SegmentCount
  {
    available := [0, 1, 2, 3, 4];
    var i := 0;
    while i < |recent|
      invariant i <= |recent|
      invariant forall k: nat :: k in available <==> k < SegmentCount && k !in recent[..i]
      invariant Distinct(available)
      invariant |available| + i >= SegmentCount
    {
      if recent[i] in available {
        available := RemoveFirst(available, recent[i]);
      }
      assert recent[..i + 1] == recent[..i] + [recent[i]];
      i := i + 1;
    }
    assert recent[..i] == recent;
  }

  /**
    The second half: pick one of the available segments; when none is left, forget
    the recent results and pick among all five. Gives the target and the new window.
   */
  function ChooseSpinTarget(available: seq<nat>, recent: seq<nat>, pick: nat): (r: (nat, seq<nat>))
    requires forall k :: k in available ==> k < SegmentCount
    ensures r.0 < SegmentCount
    ensures available != [] ==> r.0 in available && r.1 == recent
    ensures available == [] ==> r.1 == []
  {
    if available == [] then (pick % SegmentCount, [])
    else
      var t := available[pick % |available|];
      assert t in available;
      (t, recent)
  }

  /**
    With at most three recent results at least two of the five segments are left,
    so the wheel always aims away from its recent results and the window is never
    reset by the spin.
   */
  lemma SpinAvoidsRecent(available: seq<nat>, recent: seq<nat>, pick: nat)
    requires forall k: nat :: k in available <==> k < SegmentCount && k !in recent
    requires |available| + |recent| >= SegmentCount
    requires |recent| <= RecencyWindow
    ensures ChooseSpinTarget(available, recent, pick).0 !in recent
    ensures ChooseSpinTarget(available, recent, pick).1 == recent
  {
  }

  /** The five wheel segments, in wheel order. */
  datatype MysteryCard = Move(steps: int) | GoToFreeParking | GoToSocietyPenalty | NoRent

  const MysteryCards: seq<MysteryCard> := [Move(3), Move(-2), GoToFreeParking, GoToSocietyPenalty, NoRent]

  /** Where a mystery card puts a token standing on `pos`. */
  function MysteryDestination(card: MysteryCard, pos: int): (r: int)
    ensures card.Move? ==> r == (pos + card.steps) % Board.BoardSpaces
    ensures card == GoToFreeParking ==> r == Board.FreeParkingTile
    ensures card == GoToSocietyPenalty ==> r == Board.SocietyPenaltyTile
    ensures card == NoRent ==> r == pos
    ensures card != NoRent ==> 0 <= r < Board.BoardSpaces
  {
    match card
    case Move(steps) => (pos + steps) % Board.BoardSpaces
    case GoToFreeParking => Board.FreeParkingTile
    case GoToSocietyPenalty => Board.SocietyPenaltyTile
    case NoRent => pos
  }

  /**
    The two move cards wrap around the board like Python's `%` (never negative):
    3 ahead of 22 is 1, 2 back from 1 is 23.
   */
  lemma MoveCardsWrap()
    ensures MysteryDestination(MysteryCards[0], 22) == 1
    ensures MysteryDestination(MysteryCards[1], 1) == 23
    ensures MysteryDestination(MysteryCards[1], 0) == 22
  {
  }
}
