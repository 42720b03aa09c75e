/** The chunked purge of orphaned price snapshots: a DELETE with a row limit, repeated until it removes fewer
    rows than its limit, halving the limit on each statement timeout and giving up after too many in a row.
 */
module PricePurge {

  const CHUNK: nat := 1000
  const TIMEOUT_RETRIES: nat := 3

  datatype Row = Row(id: nat, chain: string, referenceBlock: nat)

  datatype Outcome = Ran(affected: nat) | Timeout | Fault

  /** One executed statement: its row limit and what came of it. */
  datatype Statement = Statement(limit: nat, outcome: Outcome)

  predicate Matches(row: Row, height: nat) {
    row.chain == "BTC" && row.referenceBlock >= height
  }

  function Matching(rows: set<Row>, height: nat): set<Row> {
    set row | row in rows && Matches(row, height)
  }

  ghost predicate Touched(before: set<Row>, after: set<Row>, height: nat) {
    after <= before && before - after <= Matching(before, height)
  }

  /** Timeouts at the end of the log, in a row. */
  ghost function Streak(log: seq<Statement>): nat {
    if log == [] || log[|log| - 1].outcome != Timeout then 0 else 1 + Streak(log[..|log| - 1])
  }

  ghost function Timeouts(log: seq<Statement>): nat {
    if log == [] then 0 else Timeouts(log[..|log| - 1]) + if log[|log| - 1].outcome == Timeout then 1 else 0
  }

  /** The limit after a number of halvings: it never reaches zero. */
  ghost function Halved(times: nat): (limit: nat)
    ensures 1 <= limit <= 1000
  {
    if times == 0 then 1000 else if Halved(times - 1) / 2 >= 1 then Halved(times - 1) / 2 else 1
  }

  /** Every statement's limit is the initial one halved once per earlier timeout. */
  ghost predicate LimitsHalve(log: seq<Statement>) {
    forall i :: 0 <= i < |log| ==> log[i].limit == Halved(Timeouts(log[..i]))
  }

  /** The log of a purge still under way, with the loop's own counters. */
  ghost predicate UnderWay(log: seq<Statement>, chunk: nat, timeouts: nat) {
    && LimitsHalve(log) && chunk == Halved(Timeouts(log)) && timeouts == Streak(log)
    && forall i :: 0 <= i < |log| ==> log[i].outcome != Fault
  }

  /** The log of a purge that gave up. */
  ghost predicate GaveUp(log: seq<Statement>) {
    log != [] && (log[|log| - 1].outcome == Fault || Streak(log) == 4)
  }

  ghost predicate FaultEnds(log: seq<Statement>) {
    LimitsHalve(log) && forall i :: 0 <= i < |log| - 1 ==> log[i].outcome != Fault
  }

  lemma LimitsGrow(log: seq<Statement>, s: Statement)
    requires LimitsHalve(log) && s.limit == Halved(Timeouts(log))
    ensures LimitsHalve(log + [s])
  {
    var now := log + [s];
    forall i | 0 <= i < |now|
      ensures now[i].limit == Halved(Timeouts(now[..i]))
    {
      if i < |log| {
        assert now[..i] == log[..i] && now[i] == log[i];
      } else {
        assert now[..i] == log;
      }
    }
  }

  lemma CountsGrow(log: seq<Statement>, s: Statement)
    ensures Streak(log + [s]) == if s.outcome == Timeout then 1 + Streak(log) else 0
    ensures Timeouts(log + [s]) == Timeouts(log) + if s.outcome == Timeout then 1 else 0
  {
    assert (log + [s])[..|log|] == log;
  }

  lemma LogGrows(log: seq<Statement>, chunk: nat, timeouts: nat, outcome: Outcome)
    requires UnderWay(log, chunk, timeouts)
    ensures var now := log + [Statement(chunk, outcome)];
            && FaultEnds(now)
            && (outcome.Fault? ==> GaveUp(now))
            && (outcome.Ran? ==> UnderWay(now, chunk, 0))
            && (outcome.Timeout? ==> UnderWay(now, if chunk / 2 > 1 then chunk / 2 else 1, timeouts + 1))
            && (outcome.Timeout? && timeouts == TIMEOUT_RETRIES ==> GaveUp(now))
  {
    LimitsGrow(log, Statement(chunk, outcome));
    CountsGrow(log, Statement(chunk, outcome));
  }

  lemma MatchingShrinks(before: set<Row>, after: set<Row>, height: nat, gone: nat)
    requires Touched(before, after, height) && |before - after| == gone
    ensures |Matching(after, height)| == |Matching(before, height)| - gone
  {
    assert Matching(before, height) == Matching(after, height) + (before - after);
    assert Matching(after, height) !! (before - after);
  }

  lemma TouchedTwice(a: set<Row>, b: set<Row>, c: set<Row>, height: nat)
    requires Touched(a, b, height) && Touched(b, c, height)
    ensures Touched(a, c, height)
  {
    forall row | row in a - c
      ensures row in Matching(a, height)
    {
      if row !in b {
        assert row in a - b;
      } else {
        assert row in b - c && row in Matching(b, height);
      }
    }
  }

  lemma NoneMatching(before: set<Row>, after: set<Row>, height: nat)
    requires Touched(before, after, height) && |Matching(after, height)| == 0
    ensures after == before - Matching(before, height)
  {
    forall row | row in after
      ensures row !in Matching(before, height)
    {
      assert row !in Matching(after, height);
    }
  }

  /** As many rows as the limit allows, any of them. */
  method Take(pool: set<Row>, limit: nat) returns (taken: set<Row>)
    ensures taken <= pool && |taken| == if |pool| <= limit then |pool| else limit
  {
    taken := {};
    var left := pool;
    while left != {} && |taken| < limit
      invariant left + taken == pool && left !! taken && |taken| <= limit
      decreases |left|
    {
      var row :| row in left;
      left, taken := left - {row}, taken + {row};
    }
    assert |pool| == |left| + |taken|;
  }

  class PriceSnapshots {
    var rows: set<Row>
    ghost var log: seq<Statement>

    constructor (rows: set<Row>)
      ensures this.rows == rows && log == []
    {
      this.rows, log := rows, [];
    }

    /** `DELETE ... LIMIT limit` on a server that may time the statement out or fail it: it removes as many
        matching rows as the limit allows, any of them, or nothing. */
    method Delete(height: nat, limit: nat) returns (outcome: Outcome)
      modifies this
      ensures log == old(log) + [Statement(limit, outcome)]
      ensures Touched(old(rows), rows, height)
      ensures outcome.Ran? ==>
                && outcome.affected == |old(rows) - rows|
                && outcome.affected ==
                   if |Matching(old(rows), height)| <= limit then |Matching(old(rows), height)| else limit
      ensures !outcome.Ran? ==> rows == old(rows)
    {
      if * {
        outcome := Timeout;
      } else if * {
        outcome := Fault;
      } else {
        var taken := Take(Matching(rows, height), limit);
        outcome := Ran(|taken|);
        rows := rows - taken;
        assert old(rows) - rows == taken;
      }
      log := log + [Statement(limit, outcome)];
    }

    /** Terminates whatever the server does. On success no matching row is left; in any case no other row is
        touched. It gives up only on a fault or on one timeout more in a row than it retries. */
    method Purge(height: nat) returns (ok: bool)
      requires log == []
      modifies this
      ensures Touched(old(rows), rows, height)
      ensures ok ==> rows == set row | row in old(rows) && (row.chain != "BTC" || row.referenceBlock < height)
      ensures forall row <- old(rows) - rows :: row.chain == "BTC" && row.referenceBlock >= height
      ensures !ok ==> GaveUp(log)
      ensures FaultEnds(log)
    {
      var chunk, timeouts := CHUNK, 0;
      while true
        invariant Touched(old(rows), rows, height)
        invariant UnderWay(log, chunk, timeouts) && timeouts <= TIMEOUT_RETRIES && chunk >= 1
        decreases |Matching(rows, height)|, TIMEOUT_RETRIES - timeouts
      {
        ghost var was, logged := rows, log;
        var outcome := Delete(height, chunk);
        LogGrows(logged, chunk, timeouts, outcome);
        TouchedTwice(old(rows), was, rows, height);
        match outcome
        case Fault => return false;
        case Timeout =>
          timeouts := timeouts + 1;
          if timeouts > TIMEOUT_RETRIES {
            return false;
          }
          chunk := if chunk / 2 > 1 then chunk / 2 else 1;
        case Ran(affected) =>
          MatchingShrinks(was, rows, height, affected);
          timeouts := 0;
          if affected < chunk {
            NoneMatching(old(rows), rows, height);
            return true;
          }
      }
    }
  }
}
