/**
  The five teams (the `Team` dataclass without its display colour), the money
  they hold in all, and crediting one of them.
 */
module Teams {
  datatype Team = Team(id: string, name: string, balance: int, pos: int)

  const TeamCount: nat := 5
  const StartingBalance: int := 10_000_000
  const TeamIds: seq<string> := ["T1", "T2", "T3", "T4", "T5"]
  const TeamNames: seq<string> := ["Team 1", "Team 2", "Team 3", "Team 4", "Team 5"]

  /** The teams a new game starts with: all on GO with 10,000,000 each. */
  function InitialTeams(): (ts: seq<Team>)
    ensures |ts| == TeamCount
    ensures forall i :: 0 <= i < |ts| ==>
      ts[i].id == TeamIds[i] && ts[i].balance == StartingBalance && ts[i].pos == 0
  {
    seq(TeamCount, i requires 0 <= i < TeamCount => Team(TeamIds[i], TeamNames[i], StartingBalance, 0))
  }

  /** The money held by all teams together. */
  function TotalBalance(ts: seq<Team>): int
  {
    if ts == [] then 0 else ts[0].balance + TotalBalance(ts[1..])
  }

  /** `teams[i].balance += delta`. */
  function Credit(ts: seq<Team>, i: nat, delta: int): (r: seq<Team>)
    requires i < |ts|
    ensures |r| == |ts|
    ensures r[i] == ts[i].(balance := ts[i].balance + delta)
    ensures forall j :: 0 <= j < |ts| && j != i ==> r[j] == ts[j]
  {
    ts[i := ts[i].(balance := ts[i].balance + delta)]
  }

  /** Crediting one team changes the money in play by exactly the amount credited. */
  lemma {:induction false} TotalAfterCredit(ts: seq<Team>, i: nat, delta: int)
    requires i < |ts|
    ensures TotalBalance(Credit(ts, i, delta)) == TotalBalance(ts) + delta
    decreases |ts|
  {
    var r := Credit(ts, i, delta);
    if i == 0 {
      assert r[1..] == ts[1..];
    } else {
      TotalAfterCredit(ts[1..], i - 1, delta);
      assert r[1..] == Credit(ts[1..], i - 1, delta);
    }
  }

  /** A debit of one team followed by a credit of the same amount to another leaves the total unchanged. */
  lemma TransferConserves(ts: seq<Team>, from: nat, to: nat, amount: int)
    requires from < |ts| && to < |ts|
    ensures TotalBalance(Credit(Credit(ts, from, -amount), to, amount)) == TotalBalance(ts)
  {
    TotalAfterCredit(ts, from, -amount);
    TotalAfterCredit(Credit(ts, from, -amount), to, amount);
  }
}
