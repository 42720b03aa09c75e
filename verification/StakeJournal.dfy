/** Pre-image journals of the columns a block rewrites in place on surviving stake rows, and the restore
    statements that copy a pre-image back when the block is orphaned.
 */
module StakeJournal {

  datatype Target = Stakes | Unstakes

  /** `target_table` and `stake_action_index`: which row was rewritten. */
  datatype RowId = RowId(table: Target, action: nat)

  /** One journal row. `prev` is the amount or the signing key before the rewrite; `major` and `minor` are
      the execution index and slash position of a contract slash, `major` the delegation or slash action
      index of the other two journals. */
  datatype Entry = Entry(row: RowId, block: nat, major: nat, minor: nat, prev: nat)

  datatype Kind = ContractSlash | KeyRotation | CapabilitySlash

  /** The comparison inside NOT EXISTS: e is preferred to d. */
  predicate Beats(kind: Kind, e: Entry, d: Entry) {
    match kind
    case ContractSlash =>
      || e.prev > d.prev
      || (e.prev == d.prev
          && (e.block < d.block
              || (e.block == d.block && (e.major < d.major || (e.major == d.major && e.minor < d.minor)))))
    case _ => e.block < d.block || (e.block == d.block && e.major < d.major)
  }

  /** An orphaned entry of one row. */
  predicate Orphan(e: Entry, id: RowId, height: nat) {
    e.row == id && e.block >= height
  }

  /** The WHERE clause of the restore picks entry i. */
  predicate Selected(kind: Kind, journal: seq<Entry>, height: nat, id: RowId, i: nat)
    requires i < |journal|
  {
    && Orphan(journal[i], id, height)
    && !exists k: nat :: k < |journal| && Orphan(journal[k], id, height) && Beats(kind, journal[k], journal[i])
  }

  /** The value UPDATE ... JOIN leaves in the row after visiting the first n journal entries. */
  function Restored(kind: Kind, journal: seq<Entry>, height: nat, id: RowId, n: nat, current: nat): nat
    requires n <= |journal|
  {
    if n == 0 then current
    else if Selected(kind, journal, height, id, n - 1) then journal[n - 1].prev
    else Restored(kind, journal, height, id, n - 1, current)
  }

  /** The first orphaned entry of the row in the order the rewrites happened, |journal| if none. The
      statements cannot see this order: no column records it. */
  function FirstOrphan(journal: seq<Entry>, height: nat, id: RowId): (i: nat)
    ensures i <= |journal|
    ensures i < |journal| ==> Orphan(journal[i], id, height)
  {
    if journal == [] then 0
    else
      var n := |journal| - 1;
      var i := FirstOrphan(journal[..n], height, id);
      if i < n then i else if Orphan(journal[n], id, height) then n else n + 1
  }

  lemma {:induction false} FirstOrphanIsFirst(journal: seq<Entry>, height: nat, id: RowId, k: nat)
    requires k < |journal| && Orphan(journal[k], id, height)
    ensures FirstOrphan(journal, height, id) <= k
  {
    var n := |journal| - 1;
    if k < n {
      FirstOrphanIsFirst(journal[..n], height, id, k);
    }
  }

  /** Of two rewrites of one row, the earlier is the preferred one. */
  ghost predicate Chained(kind: Kind, journal: seq<Entry>) {
    forall i, k :: 0 <= i < k < |journal| && journal[i].row == journal[k].row ==>
      Beats(kind, journal[i], journal[k]) && !Beats(kind, journal[k], journal[i])
  }

  /** A strictly decreasing chain of slashes is chained whatever execution index and position each slash
      carries: a nested execution may slash first under a higher index than its parent. */
  lemma DecreasingIsChained(journal: seq<Entry>)
    requires forall i, k :: 0 <= i < k < |journal| && journal[i].row == journal[k].row ==>
             journal[i].prev > journal[k].prev
    ensures Chained(ContractSlash, journal)
  {
  }

  /** Ascending by block, then execution index, then position. */
  ghost predicate NoLater(e: Entry, d: Entry) {
    || e.block < d.block
    || (e.block == d.block && e.major < d.major)
    || (e.block == d.block && e.major == d.major && e.minor <= d.minor)
  }

  /** Of a row's orphaned contract slashes the restore picks one with the highest pre-image and, among equal ones,
      the lowest block, execution index and position; of its rotations and capability slashes one with the
      lowest block and action. */
  lemma SelectedIsLeast(kind: Kind, journal: seq<Entry>, height: nat, id: RowId, i: nat)
    requires i < |journal|
    ensures Selected(kind, journal, height, id, i) <==>
              && journal[i].row == id && journal[i].block >= height
              && forall k :: 0 <= k < |journal| && journal[k].row == id && journal[k].block >= height ==>
                   if kind == ContractSlash then
                     || journal[k].prev < journal[i].prev
                     || (journal[k].prev == journal[i].prev && NoLater(journal[i], journal[k]))
                   else
                     || journal[i].block < journal[k].block
                     || (journal[i].block == journal[k].block && journal[i].major <= journal[k].major)
  {
    forall k | 0 <= k < |journal|
      ensures Beats(ContractSlash, journal[k], journal[i]) <==>
                !(journal[k].prev < journal[i].prev
                  || (journal[k].prev == journal[i].prev && NoLater(journal[i], journal[k])))
    {
    }
  }

  /** The restore picks exactly one orphaned entry of a row that has any: the first rewrite at or after the
      rollback height. */
  lemma SelectedExactlyFirst(kind: Kind, journal: seq<Entry>, height: nat, id: RowId, i: nat)
    requires Chained(kind, journal) && i < |journal|
    ensures Selected(kind, journal, height, id, i) <==> i == FirstOrphan(journal, height, id)
  {
    var f := FirstOrphan(journal, height, id);
    if Selected(kind, journal, height, id, i) {
      FirstOrphanIsFirst(journal, height, id, i);
    }
    if i == f {
      forall k: nat | k < |journal| && Orphan(journal[k], id, height)
        ensures !Beats(kind, journal[k], journal[i])
      {
        FirstOrphanIsFirst(journal, height, id, k);
        assert k == i || !Beats(kind, journal[k], journal[i]);
      }
    }
  }

  ghost function BeforeOrphans(journal: seq<Entry>, height: nat, id: RowId, current: nat): nat {
    var f := FirstOrphan(journal, height, id);
    if f < |journal| then journal[f].prev else current
  }

  lemma {:induction false} RestoredVisits(kind: Kind, journal: seq<Entry>, height: nat, id: RowId, n: nat, current: nat)
    requires Chained(kind, journal) && n <= |journal|
    ensures var f := FirstOrphan(journal, height, id);
            Restored(kind, journal, height, id, n, current) == if f < n then journal[f].prev else current
    decreases n
  {
    if n > 0 {
      SelectedExactlyFirst(kind, journal, height, id, n - 1);
      RestoredVisits(kind, journal, height, id, n - 1, current);
    }
  }

  /** The statement leaves the value the row held just before its first rewrite at or after the height. */
  lemma RestoredIsBeforeOrphans(kind: Kind, journal: seq<Entry>, height: nat, id: RowId, current: nat)
    requires Chained(kind, journal)
    ensures Restored(kind, journal, height, id, |journal|, current) == BeforeOrphans(journal, height, id, current)
  {
    RestoredVisits(kind, journal, height, id, |journal|, current);
  }

  /** `DELETE ... WHERE block_index >= height`. */
  function Surviving(journal: seq<Entry>, height: nat): seq<Entry> {
    if journal == [] then []
    else
      var n := |journal| - 1;
      var rest := Surviving(journal[..n], height);
      if journal[n].block < height then rest + [journal[n]] else rest
  }

  lemma {:induction false} AllSurvive(journal: seq<Entry>, height: nat)
    requires forall e <- journal :: e.block < height
    ensures Surviving(journal, height) == journal
    ensures forall id :: FirstOrphan(journal, height, id) == |journal|
  {
    if journal != [] {
      var n := |journal| - 1;
      AllSurvive(journal[..n], height);
      assert journal[n] in journal;
    }
  }

  /** One more orphaned rewrite of a row changes no pre-image, when its own pre-image is the row's current
      value. */
  lemma OrphanAbsorbed(journal: seq<Entry>, e: Entry, height: nat, id: RowId, before: nat, after: nat)
    requires e.block >= height
    requires if e.row == id then e.prev == before else before == after
    ensures BeforeOrphans(journal + [e], height, id, after) == BeforeOrphans(journal, height, id, before)
    ensures Surviving(journal + [e], height) == Surviving(journal, height)
  {
    assert (journal + [e])[..|journal|] == journal;
  }

  /** With positions alone the restore goes wrong: a nested execution that slashes first under the higher
      execution index is passed over for its parent. */
  lemma PositionOrderMisses()
    ensures var id := RowId(Stakes, 1);
            var journal := [Entry(id, 9, 5, 0, 100), Entry(id, 9, 4, 0, 70)];
            && BeforeOrphans(journal, 9, id, 60) == 100
            && Restored(ContractSlash, journal, 9, id, 2, 60) == 100
            && Restored(CapabilitySlash, journal, 9, id, 2, 60) == 70
  {
    var id := RowId(Stakes, 1);
    var journal := [Entry(id, 9, 5, 0, 100), Entry(id, 9, 4, 0, 70)];
    assert FirstOrphan(journal[..1], 9, id) == 0 by {
      assert journal[..1][..0] == [];
    }
    assert FirstOrphan(journal, 9, id) == 0;
    DecreasingIsChained(journal);
    RestoredIsBeforeOrphans(ContractSlash, journal, 9, id, 60);
    assert Beats(CapabilitySlash, journal[1], journal[0]);
    assert Selected(CapabilitySlash, journal, 9, id, 1);
  }
}
