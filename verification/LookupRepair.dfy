/** Repair of an id-keyed lookup table from an authoritative page: rows in conflict with the page by id or by
    natural key are retired, then the page goes in with INSERT IGNORE. Outside the repair, a row of a
    superseded generation is retired only inside the page's own id window.
 */
module LookupRepair {

  import opened Hashing

  /** Column values of a row; a column the row does not have is absent. */
  type Columns = map<string, string>

  /** A page row as it arrives, possibly without an id. */
  datatype PageRow = PageRow(id: Option<int>, columns: Columns)

  type Table = map<int, Columns>

  predicate HasKey(columns: Columns, key: seq<string>) {
    forall c <- key :: c in columns
  }

  function KeyOf(columns: Columns, key: seq<string>): seq<Option<string>> {
    seq(|key|, i requires 0 <= i < |key| => if key[i] in columns then Some(columns[key[i]]) else None)
  }

  /** Two rows have the same natural key exactly when they agree on every column of it, absent ones included. */
  lemma SameKeyExactly(a: Columns, b: Columns, key: seq<string>)
    ensures KeyOf(a, key) == KeyOf(b, key) <==>
              forall c <- key :: (c in a <==> c in b) && (c in a ==> a[c] == b[c])
  {
    var x, y := KeyOf(a, key), KeyOf(b, key);
    if x == y {
      forall c | c in key
        ensures (c in a <==> c in b) && (c in a ==> a[c] == b[c])
      {
        var i :| 0 <= i < |key| && key[i] == c;
        assert x[i] == y[i];
      }
    } else {
      var i :| 0 <= i < |key| && x[i] != y[i];
      assert key[i] in key;
    }
  }

  /** Ids of the rows with a natural key. */
  function Holders(table: Table, key: seq<string>, value: seq<Option<string>>): set<int> {
    set id | id in table && KeyOf(table[id], key) == value
  }

  predicate Complete(p: PageRow, key: seq<string>) {
    p.id.Some? && HasKey(p.columns, key)
  }

  /** The table already holds the pair, and no other row has its key. */
  predicate Converged(table: Table, key: seq<string>, p: PageRow) {
    p.id.Some? && Holders(table, key, KeyOf(p.columns, key)) == {p.id.value}
  }

  /** A local row that shares its id or its key with the page row. */
  predicate Shares(table: Table, key: seq<string>, p: PageRow, id: int)
    requires id in table
  {
    p.id == Some(id) || KeyOf(table[id], key) == KeyOf(p.columns, key)
  }

  /** A page with every id and key present, pairwise distinct in both. */
  ghost predicate Authoritative(page: seq<PageRow>, key: seq<string>) {
    && (forall p <- page :: Complete(p, key))
    && forall i, k :: 0 <= i < k < |page| ==>
         page[i].id != page[k].id && KeyOf(page[i].columns, key) != KeyOf(page[k].columns, key)
  }

  ghost predicate InPage(page: seq<PageRow>, id: int) {
    exists p :: p in page && p.id == Some(id)
  }

  /** Shares neither id nor key with any page row. */
  ghost predicate Untouched(table: Table, page: seq<PageRow>, key: seq<string>, id: int)
    requires id in table
  {
    forall p <- page :: !Shares(table, key, p, id)
  }

  /** The rows the reconcile scan retires. */
  ghost predicate Retired(table: Table, page: seq<PageRow>, key: seq<string>, id: int)
    requires id in table
  {
    exists p :: p in page && !Converged(table, key, p) && Shares(table, key, p, id)
  }

  /** Two page rows never retire each other's converged rows: what survives the scan is what shares nothing
      with the page, and the page's own converged pairs. */
  lemma SurvivorsExactly(table: Table, page: seq<PageRow>, key: seq<string>, id: int)
    requires Authoritative(page, key) && id in table
    ensures !Retired(table, page, key, id) <==>
              Untouched(table, page, key, id) || exists p :: p in page && p.id == Some(id) && Converged(table, key, p)
  {
    if p :| p in page && p.id == Some(id) && Converged(table, key, p) {
      assert id in Holders(table, key, KeyOf(p.columns, key));
      forall q | q in page && !Converged(table, key, q)
        ensures !Shares(table, key, q, id)
      {
        var i :| 0 <= i < |page| && page[i] == p;
        var k :| 0 <= k < |page| && page[k] == q;
        assert i != k;
        assert i < k || k < i;
      }
    } else if !Retired(table, page, key, id) {
      forall p | p in page
        ensures Shares(table, key, p, id) ==> p.id == Some(id) && Converged(table, key, p)
      {
        assert KeyOf(table[id], key) == KeyOf(p.columns, key) ==> id in Holders(table, key, KeyOf(p.columns, key));
      }
    }
  }

  lemma RetiredGrows(table: Table, page: seq<PageRow>, p: PageRow, key: seq<string>, id: int)
    requires id in table
    ensures Retired(table, page + [p], key, id) <==>
            Retired(table, page, key, id) || (!Converged(table, key, p) && Shares(table, key, p, id))
  {
    if Retired(table, page, key, id) {
      var q :| q in page && !Converged(table, key, q) && Shares(table, key, q, id);
      assert q in page + [p];
    }
    assert p in page + [p];
  }

  /** Every row that is not an old one is alone with its key. */
  ghost predicate OwnKeys(before: Table, now: Table, key: seq<string>) {
    forall id <- now :: id !in before ==> Holders(now, key, KeyOf(now[id], key)) == {id}
  }

  lemma OwnKeyAdded(before: Table, now: Table, key: seq<string>, id: int, columns: Columns)
    requires OwnKeys(before, now, key) && id !in now && Holders(now, key, KeyOf(columns, key)) == {}
    ensures OwnKeys(before, now[id := columns], key)
  {
    var after := now[id := columns];
    forall x | x in after && x !in before
      ensures Holders(after, key, KeyOf(after[x], key)) == {x}
    {
      if x == id {
        forall y | y in Holders(after, key, KeyOf(columns, key)) && y != id
          ensures y in Holders(now, key, KeyOf(columns, key))
        {
        }
      } else {
        assert x !in Holders(now, key, KeyOf(columns, key));
        assert Holders(after, key, KeyOf(now[x], key)) == Holders(now, key, KeyOf(now[x], key));
      }
    }
  }

  class Lookup {
    var rows: Table

    constructor (rows: Table)
      ensures this.rows == rows
    {
      this.rows := rows;
    }

    /** Nothing is deleted unless every page row has its id and its natural key. */
    method ReconcileLookupRows(page: seq<PageRow>, key: seq<string>) returns (ok: bool)
      modifies this
      ensures ok <==> forall p <- page :: p.id.Some? && forall c <- key :: c in p.columns
      ensures !ok ==> rows == old(rows)
      ensures ok ==> rows == map id | id in old(rows) && !Retired(old(rows), page, key, id) :: old(rows)[id]
    {
      var retire: set<int> := {};
      for i := 0 to |page|
        invariant forall p <- page[..i] :: Complete(p, key)
        invariant retire <= rows.Keys && rows == old(rows)
        invariant forall id <- rows :: id in retire <==> Retired(rows, page[..i], key, id)
      {
        var p := page[i];
        assert page[..i + 1] == page[..i] + [p];
        if !Complete(p, key) {
          assert p in page;
          return false;
        }
        forall id | id in rows
          ensures Retired(rows, page[..i + 1], key, id) <==>
                    Retired(rows, page[..i], key, id) || (!Converged(rows, key, p) && Shares(rows, key, p, id))
        {
          RetiredGrows(rows, page[..i], p, key, id);
        }
        var holders := Holders(rows, key, KeyOf(p.columns, key));
        if holders != {p.id.value} {
          if p.id.value in rows {
            retire := retire + {p.id.value};
          }
          retire := retire + holders;
        }
      }
      assert page[..|page|] == page;
      rows := map id | id in rows && id !in retire :: rows[id];
      return true;
    }

    /** `INSERT IGNORE`: a row whose id is taken, or whose unique key is, is skipped. */
    method InsertIgnore(page: seq<PageRow>, key: seq<string>, unique: bool)
      requires forall p <- page :: p.id.Some?
      modifies this
      ensures forall id :: id in rows ==> id in old(rows) || InPage(page, id)
      ensures forall id <- old(rows) :: id in rows && rows[id] == old(rows)[id]
      ensures forall id <- rows :: id !in old(rows) ==>
                exists p :: p in page && p.id == Some(id) && rows[id] == p.columns
      ensures Authoritative(page, key) ==> forall p <- page ::
                Holders(old(rows), key, KeyOf(p.columns, key)) == {} ==> p.id.value in rows
      ensures !unique ==> forall p <- page :: p.id.value in rows
      ensures unique ==> forall id <- rows :: id !in old(rows) ==> Holders(rows, key, KeyOf(rows[id], key)) == {id}
    {
      for i := 0 to |page|
        invariant forall id <- old(rows) :: id in rows && rows[id] == old(rows)[id]
        invariant forall id <- rows :: id !in old(rows) ==>
                    exists k :: 0 <= k < i && page[k].id == Some(id) && rows[id] == page[k].columns
        invariant Authoritative(page, key) ==> forall k :: 0 <= k < i ==>
                    (Holders(old(rows), key, KeyOf(page[k].columns, key)) == {} ==> page[k].id.value in rows)
        invariant !unique ==> forall k :: 0 <= k < i ==> page[k].id.value in rows
        invariant unique ==> OwnKeys(old(rows), rows, key)
      {
        var p := page[i];
        var id := p.id.value;
        var taken := unique && Holders(rows, key, KeyOf(p.columns, key)) != {};
        if Authoritative(page, key) && Holders(old(rows), key, KeyOf(p.columns, key)) == {} {
          NewKeyIsFree(old(rows), rows, page, key, i);
        }
        if id !in rows && !taken {
          if unique {
            OwnKeyAdded(old(rows), rows, key, id, p.columns);
          }
          rows := rows[id := p.columns];
        }
      }
    }

    /** After the repair the table is the page's id and key pairs plus the rows that share neither with it. */
    method Repair(page: seq<PageRow>, key: seq<string>, unique: bool) returns (ok: bool)
      requires Authoritative(page, key)
      modifies this
      ensures ok
      ensures forall id :: id in rows <==> InPage(page, id) || (id in old(rows) && Untouched(old(rows), page, key, id))
      ensures forall p <- page :: p.id.value in rows && KeyOf(rows[p.id.value], key) == KeyOf(p.columns, key)
      ensures forall id <- rows :: !InPage(page, id) ==> rows[id] == old(rows)[id]
    {
      ok := ReconcileLookupRows(page, key);
      ghost var mid := rows;
      SurvivorsOfScan(old(rows), mid, page, key);
      InsertIgnore(page, key, unique);
      RepairedPairs(old(rows), mid, rows, page, key);
    }
  }

  /** A key no old row holds is held by no row an earlier part of the page brought. */
  lemma NewKeyIsFree(before: Table, now: Table, page: seq<PageRow>, key: seq<string>, i: nat)
    requires Authoritative(page, key) && i < |page|
    requires forall id <- before :: id in now && now[id] == before[id]
    requires forall id <- now :: id !in before ==>
               exists k :: 0 <= k < i && page[k].id == Some(id) && now[id] == page[k].columns
    requires Holders(before, key, KeyOf(page[i].columns, key)) == {}
    ensures Holders(now, key, KeyOf(page[i].columns, key)) == {}
  {
    var value := KeyOf(page[i].columns, key);
    forall id | id in now
      ensures KeyOf(now[id], key) != value
    {
      if id in before {
        assert id !in Holders(before, key, value);
      } else {
        var k :| 0 <= k < i && page[k].id == Some(id) && now[id] == page[k].columns;
      }
    }
  }

  /** After the scan, every key of the page is free or held by its own converged pair. */
  lemma SurvivorsOfScan(before: Table, mid: Table, page: seq<PageRow>, key: seq<string>)
    requires Authoritative(page, key)
    requires mid == map id | id in before && !Retired(before, page, key, id) :: before[id]
    ensures forall p <- page :: Holders(mid, key, KeyOf(p.columns, key)) <= {p.id.value}
    ensures forall p <- page :: p.id.value in mid ==> p.id.value in Holders(mid, key, KeyOf(p.columns, key))
  {
    forall p, id | p in page && id in mid && Shares(before, key, p, id)
      ensures id == p.id.value && KeyOf(mid[id], key) == KeyOf(p.columns, key)
    {
      assert Converged(before, key, p);
      assert Holders(before, key, KeyOf(p.columns, key)) == {p.id.value};
      if KeyOf(before[id], key) == KeyOf(p.columns, key) {
        assert id in Holders(before, key, KeyOf(p.columns, key));
      }
    }
  }

  lemma RepairedPairs(before: Table, mid: Table, after: Table, page: seq<PageRow>, key: seq<string>)
    requires Authoritative(page, key)
    requires mid == map id | id in before && !Retired(before, page, key, id) :: before[id]
    requires forall p <- page :: Holders(mid, key, KeyOf(p.columns, key)) <= {p.id.value}
    requires forall p <- page :: p.id.value in mid ==> p.id.value in Holders(mid, key, KeyOf(p.columns, key))
    requires forall id <- mid :: id in after && after[id] == mid[id]
    requires forall id <- after :: id !in mid ==> exists p :: p in page && p.id == Some(id) && after[id] == p.columns
    requires forall p <- page :: Holders(mid, key, KeyOf(p.columns, key)) == {} ==> p.id.value in after
    ensures forall id :: id in after <==> InPage(page, id) || (id in before && Untouched(before, page, key, id))
    ensures forall p <- page :: p.id.value in after && KeyOf(after[p.id.value], key) == KeyOf(p.columns, key)
    ensures forall id <- after :: !InPage(page, id) ==> after[id] == before[id]
  {
    forall p | p in page
      ensures p.id.value in after && KeyOf(after[p.id.value], key) == KeyOf(p.columns, key)
    {
      if p.id.value in mid {
        assert p.id.value in Holders(mid, key, KeyOf(p.columns, key));
      } else {
        assert Holders(mid, key, KeyOf(p.columns, key)) == {} by {
          assert p.id.value !in Holders(mid, key, KeyOf(p.columns, key));
        }
        var id := p.id.value;
        assert id in after && id !in mid;
        var q :| q in page && q.id == Some(id) && after[id] == q.columns;
        SameIdSameRow(page, key, p, q);
      }
    }
    forall id | id in before
      ensures id in mid <==>
              Untouched(before, page, key, id) || exists p :: p in page && p.id == Some(id) && Converged(before, key, p)
    {
      SurvivorsExactly(before, page, key, id);
    }
  }

  lemma SameIdSameRow(page: seq<PageRow>, key: seq<string>, p: PageRow, q: PageRow)
    requires Authoritative(page, key) && p in page && q in page && p.id == q.id
    ensures p == q
  {
    var i :| 0 <= i < |page| && page[i] == p;
    var k :| 0 <= k < |page| && page[k] == q;
    assert i == k || i < k || k < i;
  }

  ghost predicate KeysUnique(table: Table, key: seq<string>) {
    forall a, b :: a in table && b in table && KeyOf(table[a], key) == KeyOf(table[b], key) ==> a == b
  }

  /** The repaired table, as `Repair` states it. */
  ghost predicate Repaired(before: Table, after: Table, page: seq<PageRow>, key: seq<string>)
    requires Authoritative(page, key)
  {
    && (forall id :: id in after <==> InPage(page, id) || (id in before && Untouched(before, page, key, id)))
    && (forall p <- page :: p.id.value in after && KeyOf(after[p.id.value], key) == KeyOf(p.columns, key))
    && (forall id <- after :: !InPage(page, id) ==> after[id] == before[id])
  }

  lemma PageRowOwns(before: Table, after: Table, page: seq<PageRow>, key: seq<string>, a: int, b: int)
    requires Authoritative(page, key) && Repaired(before, after, page, key)
    requires a in after && b in after && KeyOf(after[a], key) == KeyOf(after[b], key)
    ensures InPage(page, a) ==> a == b
  {
    if InPage(page, a) {
      var p :| p in page && p.id == Some(a);
      PageKeyOwner(before, after, page, key, p, b);
    }
  }

  /** Local keys stay unique, whatever duplicates the retired rows had among themselves. */
  lemma RepairKeepsKeysUnique(before: Table, after: Table, page: seq<PageRow>, key: seq<string>)
    requires Authoritative(page, key) && Repaired(before, after, page, key)
    requires KeysUnique(map id | id in before && Untouched(before, page, key, id) :: before[id], key)
    ensures KeysUnique(after, key)
  {
    forall a, b | a in after && b in after && KeyOf(after[a], key) == KeyOf(after[b], key)
      ensures a == b
    {
      PageRowOwns(before, after, page, key, a, b);
      PageRowOwns(before, after, page, key, b, a);
      if !InPage(page, a) && !InPage(page, b) {
        var kept := map id | id in before && Untouched(before, page, key, id) :: before[id];
        assert a in kept && b in kept && kept[a] == after[a] && kept[b] == after[b];
      }
    }
  }

  lemma OutsideKeysDiffer(before: Table, after: Table, page: seq<PageRow>, key: seq<string>, p: PageRow, x: int)
    requires Authoritative(page, key) && Repaired(before, after, page, key) && p in page && x in after
             && !InPage(page, x)
    ensures KeyOf(after[x], key) != KeyOf(p.columns, key)
  {
    assert !Shares(before, key, p, x);
  }

  lemma PageKeyOwner(before: Table, after: Table, page: seq<PageRow>, key: seq<string>, p: PageRow, x: int)
    requires Authoritative(page, key) && Repaired(before, after, page, key) && p in page && x in after
    requires KeyOf(after[x], key) == KeyOf(p.columns, key)
    ensures x == p.id.value
  {
    if InPage(page, x) {
      var q :| q in page && q.id == Some(x);
      SameKeySameRow(page, key, p, q);
    } else {
      OutsideKeysDiffer(before, after, page, key, p, x);
    }
  }

  lemma SameKeySameRow(page: seq<PageRow>, key: seq<string>, p: PageRow, q: PageRow)
    requires Authoritative(page, key) && p in page && q in page && KeyOf(p.columns, key) == KeyOf(q.columns, key)
    ensures p == q
  {
    var i :| 0 <= i < |page| && page[i] == p;
    var k :| 0 <= k < |page| && page[k] == q;
    assert i == k || i < k || k < i;
  }

  /** A repaired table is converged: the scan of a second repair retires nothing. */
  lemma RepairConverges(before: Table, after: Table, page: seq<PageRow>, key: seq<string>, id: int)
    requires Authoritative(page, key) && Repaired(before, after, page, key) && id in after
    ensures !Retired(after, page, key, id)
  {
    forall p | p in page
      ensures Converged(after, key, p)
    {
      forall x | x in Holders(after, key, KeyOf(p.columns, key))
        ensures x == p.id.value
      {
        PageKeyOwner(before, after, page, key, p, x);
      }
      assert p.id.value in Holders(after, key, KeyOf(p.columns, key));
    }
  }

  // ---------------------------------------------------------------------------
  // Retiring a superseded generation
  // ---------------------------------------------------------------------------

  /** A warning of INSERT IGNORE: a duplicate on a named unique index, given by its columns, or anything else. */
  datatype Warning = Duplicate(index: seq<string>) | Other

  /** The page's ids and the window they span. */
  function CarriedIds(page: seq<PageRow>): set<int> {
    set p | p in page && p.id.Some? :: p.id.value
  }

  /** The local row may be retired for the batch row: it alone holds the batch row's key, the page does not
      carry its id, and its id lies in the page's window. */
  ghost predicate Stale(table: Table, page: seq<PageRow>, index: seq<string>, row: PageRow, id: int) {
    && row.id.Some? && row.id.value !in table && HasKey(row.columns, index)
    && Holders(table, index, KeyOf(row.columns, index)) == {id}
    && id !in CarriedIds(page)
    && (exists a :: a in CarriedIds(page) && a <= id) && (exists b :: b in CarriedIds(page) && id <= b)
  }

  /** Only local rows go, none the page carries and none outside its id window. */
  ghost predicate OnlyStale(before: Table, after: Table, page: seq<PageRow>) {
    && (forall id <- after :: id in before && after[id] == before[id])
    && forall id <- before :: id !in after ==>
         && id !in CarriedIds(page)
         && (exists a :: a in CarriedIds(page) && a <= id) && (exists b :: b in CarriedIds(page) && id <= b)
  }

  /** One batch row against one index: its stale holder goes, if it has one. */
  ghost function AfterRow(table: Table, page: seq<PageRow>, index: seq<string>, row: PageRow): Table {
    if exists id :: id in table && Stale(table, page, index, row, id)
    then var id :| id in table && Stale(table, page, index, row, id); table - {id}
    else table
  }

  /** The batch rows in order. */
  ghost function AfterBatch(table: Table, page: seq<PageRow>, index: seq<string>, batch: seq<PageRow>): Table {
    if batch == [] then table
    else var n := |batch| - 1; AfterRow(AfterBatch(table, page, index, batch[..n]), page, index, batch[n])
  }

  /** The indexes the warnings name, each once, in order; one without readable columns is passed over. */
  ghost function AfterWarnings(table: Table, page: seq<PageRow>, warnings: seq<Warning>, batch: seq<PageRow>): Table {
    if warnings == [] then table
    else
      var n := |warnings| - 1;
      var before := AfterWarnings(table, page, warnings[..n], batch);
      if warnings[n].Duplicate? && warnings[n].index != [] && warnings[n] !in warnings[..n]
      then AfterBatch(before, page, warnings[n].index, batch)
      else before
  }

  /** A key has at most one stale holder. */
  lemma StaleUnique(table: Table, page: seq<PageRow>, index: seq<string>, row: PageRow, a: int, b: int)
    requires Stale(table, page, index, row, a) && Stale(table, page, index, row, b)
    ensures a == b
  {
    assert a in {b};
  }

  /** Once its stale holder is gone the batch row's key is free, so the row lands when it is inserted again. */
  lemma RetiredKeyIsFree(table: Table, page: seq<PageRow>, index: seq<string>, row: PageRow, id: int)
    requires id in table && Stale(table, page, index, row, id)
    ensures AfterRow(table, page, index, row) == table - {id}
    ensures Holders(AfterRow(table, page, index, row), index, KeyOf(row.columns, index)) == {}
    ensures row.id.value !in AfterRow(table, page, index, row)
  {
    var gone :| gone in table && AfterRow(table, page, index, row) == table - {gone}
      && Stale(table, page, index, row, gone);
    StaleUnique(table, page, index, row, id, gone);
    var after := table - {id};
    forall x | x in after
      ensures KeyOf(after[x], index) != KeyOf(row.columns, index)
    {
      assert x !in {id};
      assert x !in Holders(table, index, KeyOf(row.columns, index));
    }
  }

  method Bounds(page: seq<PageRow>) returns (low: int, high: int)
    requires page != [] && forall p <- page :: p.id.Some?
    ensures low in CarriedIds(page) && high in CarriedIds(page)
    ensures forall id <- CarriedIds(page) :: low <= id <= high
  {
    low, high := page[0].id.value, page[0].id.value;
    assert page[0] in page;
    for i := 1 to |page|
      invariant low in CarriedIds(page) && high in CarriedIds(page)
      invariant forall k :: 0 <= k < i ==> low <= page[k].id.value <= high
    {
      assert page[i] in page;
      var id := page[i].id.value;
      if id < low {
        low := id;
      }
      if id > high {
        high := id;
      }
    }
  }

  /** One batch row against one index: at most its one stale holder goes. */
  method RetireHolder(table: Table, page: seq<PageRow>, low: int, high: int, index: seq<string>, row: PageRow)
    returns (after: Table, gone: Option<int>)
    requires low in CarriedIds(page) && high in CarriedIds(page)
    requires forall id <- CarriedIds(page) :: low <= id <= high
    ensures gone.Some? ==>
              gone.value in table && Stale(table, page, index, row, gone.value) && after == table - {gone.value}
    ensures gone.None? ==> after == table && forall id <- table :: !Stale(table, page, index, row, id)
    ensures after == AfterRow(table, page, index, row)
  {
    after, gone := table, None;
    if row.id.None? || row.id.value in table || !HasKey(row.columns, index) {
      return;
    }
    var holders := Holders(table, index, KeyOf(row.columns, index));
    if exists id :: id in table && holders == {id} {
      var id :| id in table && holders == {id};
      if id !in CarriedIds(page) && low <= id <= high {
        after, gone := table - {id}, Some(id);
        RetiredKeyIsFree(table, page, index, row, id);
      }
    }
  }

  /** The retired ids are exactly the ones that went. */
  ghost predicate Lists(before: Table, after: Table, retired: seq<int>) {
    forall id :: id in before && id !in after <==> id in retired
  }

  lemma OneMoreStale(first: Table, table: Table, after: Table, page: seq<PageRow>, index: seq<string>, row: PageRow,
                     id: int, retired: seq<int>)
    requires OnlyStale(first, table, page) && Lists(first, table, retired)
    requires id in table && Stale(table, page, index, row, id) && after == table - {id}
    ensures OnlyStale(first, after, page) && Lists(first, after, retired + [id])
  {
  }

  /** The batch against one index. */
  method RetireBatch(ghost first: Table, table: Table, page: seq<PageRow>, low: int, high: int, index: seq<string>,
                     batch: seq<PageRow>, listed: seq<int>)
    returns (after: Table, retired: seq<int>)
    requires low in CarriedIds(page) && high in CarriedIds(page)
    requires forall id <- CarriedIds(page) :: low <= id <= high
    requires OnlyStale(first, table, page) && Lists(first, table, listed)
    ensures OnlyStale(first, after, page) && Lists(first, after, retired)
    ensures after == AfterBatch(table, page, index, batch)
  {
    after, retired := table, listed;
    for k := 0 to |batch|
      invariant OnlyStale(first, after, page) && Lists(first, after, retired)
      invariant after == AfterBatch(table, page, index, batch[..k])
    {
      assert batch[..k + 1][..k] == batch[..k];
      ghost var was := after;
      var gone;
      after, gone := RetireHolder(after, page, low, high, index, batch[k]);
      if gone.Some? {
        OneMoreStale(first, was, after, page, index, batch[k], gone.value, retired);
        retired := retired + [gone.value];
      }
    }
    assert batch[..|batch|] == batch;
  }

  /** `retireStaleNaturalKeyRows`: refuses outright on any warning that is not a natural-key collision and on a
      page row without an id. */
  method RetireStaleNaturalKeyRows(table: Table, batch: seq<PageRow>, page: seq<PageRow>, warnings: seq<Warning>)
    returns (after: Table, retired: seq<int>)
    ensures OnlyStale(table, after, page) && Lists(table, after, retired)
    ensures (exists w <- warnings :: w.Other?) || (exists p <- page :: p.id.None?) ==> after == table && retired == []
    ensures (forall w <- warnings :: w.Duplicate?) && (forall p <- page :: p.id.Some?) && page != [] ==>
              after == AfterWarnings(table, page, warnings, batch)
  {
    after, retired := table, [];
    if (exists w :: w in warnings && w.Other?) || (exists p :: p in page && p.id.None?) || page == [] {
      return;
    }
    var low, high := Bounds(page);
    for i := 0 to |warnings|
      invariant OnlyStale(table, after, page) && Lists(table, after, retired)
      invariant after == AfterWarnings(table, page, warnings[..i], batch)
    {
      assert warnings[..i + 1][..i] == warnings[..i];
      var index := warnings[i].index;
      if index != [] && warnings[i] !in warnings[..i] {
        after, retired := RetireBatch(table, after, page, low, high, index, batch, retired);
      }
    }
    assert warnings[..|warnings|] == warnings;
  }
}
