/** `contract_state_root`: threaded from the prior block's stored root, or rebuilt in full,
    over every run of applied blocks and reorgs. */
module ContractState {
  import opened Hashing
  import opened SparseMerkle
  import opened PersistentSmt
  import opened JournalRoots

  type StateRow = Row<Option<string>>

  /** NULL is the deletion tombstone; any stored text, the empty one included, is a leaf. */
  function ContractStateLeaf(value: Option<string>): Option<Hash> {
    if value.None? then None else Some(LeafHash(value.value))
  }

  /** A slot at one height is inert, shadow-computed in its own column, or committed. */
  datatype Mode = Inert | Shadow | Armed

  datatype Chain = Chain(
    rows: seq<StateRow>,
    committed: map<int, Hash>,
    shadow: map<int, Hash>,
    nodes: NodeStore)

  datatype Event =
    | Apply(block: nat, writes: seq<StateRow>, mode: Mode, touched: seq<Key>, all: seq<Key>)
    | Reorg(height: nat)

  const GENESIS := Chain([], map[], map[], map[])

  // ---------------------------------------------------------------------------
  // The derivation
  // ---------------------------------------------------------------------------

  /** Node store and root after resolving one block from the prior root of its own column. */
  ghost function Resolved(depth: nat, rows: seq<StateRow>, column: map<int, Hash>, nodes: NodeStore,
                          block: nat, touched: seq<Key>, all: seq<Key>): (NodeStore, Hash)
  {
    if block - 1 in column then Thread(nodes, column[block - 1], Updates(rows, touched, ContractStateLeaf))
    else Thread(nodes, Empty(depth), LiveUpdates(rows, all, ContractStateLeaf))
  }

  method LatestStateValue(rows: seq<StateRow>, key: Key) returns (value: Option<string>)
    ensures ContractStateLeaf(value) == LeafNow(rows, key, ContractStateLeaf)
  {
    var latest := Latest(rows, key);
    value := if latest.Some? then latest.value.value else None;
  }

  method BuildFullContractStateRoot(smt: PersistentSmt, rows: seq<StateRow>, all: seq<Key>) returns (root: Hash)
    requires forall k <- all :: |k| == smt.depth
    modifies smt
    ensures (smt.nodes, root) == Thread(old(smt.nodes), Empty(smt.depth), LiveUpdates(rows, all, ContractStateLeaf))
  {
    ghost var start, ops := smt.nodes, [];
    root := Empty(smt.depth);
    for i := 0 to |all|
      invariant ops == LiveUpdates(rows, all[..i], ContractStateLeaf)
      invariant (smt.nodes, root) == Thread(start, Empty(smt.depth), ops)
    {
      UpdatesExtend(rows, all, ContractStateLeaf, i);
      var value := LatestStateValue(rows, all[i]);
      var leaf := ContractStateLeaf(value);
      if leaf.Some? {
        ThreadLast(start, Empty(smt.depth), ops, Op(all[i], leaf));
        root := smt.Update(root, all[i], leaf);
        ops := ops + [Op(all[i], leaf)];
      }
    }
    assert all[..|all|] == all;
  }

  method ResolveContractStateRoot(smt: PersistentSmt, rows: seq<StateRow>, column: map<int, Hash>, block: nat,
                                  touched: seq<Key>, all: seq<Key>)
    returns (root: Hash)
    requires forall k <- touched :: |k| == smt.depth
    requires forall k <- all :: |k| == smt.depth
    modifies smt
    ensures (smt.nodes, root) == Resolved(smt.depth, rows, column, old(smt.nodes), block, touched, all)
  {
    if block - 1 !in column {
      root := BuildFullContractStateRoot(smt, rows, all);
      return;
    }
    root := column[block - 1];
    for i := 0 to |touched|
      invariant (smt.nodes, root)
                == Thread(old(smt.nodes), column[block - 1], Updates(rows, touched[..i], ContractStateLeaf))
    {
      ThreadNext(old(smt.nodes), column[block - 1], rows, touched, ContractStateLeaf, i);
      var value := LatestStateValue(rows, touched[i]);
      var leaf := ContractStateLeaf(value);
      root := smt.Update(root, touched[i], leaf);
    }
    assert touched[..|touched|] == touched;
  }

  // ---------------------------------------------------------------------------
  // Runs of blocks and reorgs
  // ---------------------------------------------------------------------------

  /** What a block's payload and the queries over it guarantee: the block is above every stored
      row (no future rows) and the two key lists are the query answers. */
  ghost predicate Valid(depth: nat, s: Chain, e: Event) {
    e.Apply? ==>
      var rows := s.rows + e.writes;
      && (forall x <- s.rows :: x.block < e.block)
      && (forall b <- s.committed :: b < e.block)
      && (forall b <- s.shadow :: b < e.block)
      && (forall x <- e.writes :: x.block == e.block && |x.key| == depth)
      && ListsKeys(e.touched, Touched(rows, e.block))
      && ListsKeys(e.all, AllKeys(rows))
  }

  ghost function Below(column: map<int, Hash>, height: nat): map<int, Hash> {
    map b | b in column && b < height :: column[b]
  }

  /** Applying a block appends its rows and stores its root in the active column; a reorg deletes
      the journal rows and root rows at or above the orphan height and leaves the node store. */
  ghost function Step(depth: nat, s: Chain, e: Event): Chain {
    match e
    case Reorg(height) =>
      Chain(UpTo(s.rows, height - 1), Below(s.committed, height), Below(s.shadow, height), s.nodes)
    case Apply(block, writes, mode, touched, all) =>
      var rows := s.rows + writes;
      match mode
      case Inert => s.(rows := rows)
      case Armed =>
        var (nodes, root) := Resolved(depth, rows, s.committed, s.nodes, block, touched, all);
        s.(rows := rows, committed := s.committed[block := root], nodes := nodes)
      case Shadow =>
        var (nodes, root) := Resolved(depth, rows, s.shadow, s.nodes, block, touched, all);
        s.(rows := rows, shadow := s.shadow[block := root], nodes := nodes)
  }

  ghost function Run(depth: nat, events: seq<Event>): Chain {
    if events == [] then GENESIS
    else Step(depth, Run(depth, events[..|events| - 1]), events[|events| - 1])
  }

  ghost predicate ValidRun(depth: nat, events: seq<Event>) {
    forall i :: 0 <= i < |events| ==> Valid(depth, Run(depth, events[..i]), events[i])
  }

  /** Every root of a column stands for the live state as of its own block. */
  ghost predicate Anchored(depth: nat, rows: seq<StateRow>, column: map<int, Hash>, nodes: NodeStore) {
    forall b <- column :: Represents(depth, nodes, column[b], Live(UpTo(rows, b), ContractStateLeaf))
  }

  ghost predicate Inv(depth: nat, s: Chain) {
    && ContentAddressed(s.nodes)
    && KeysFull(depth, s.rows)
    && Anchored(depth, s.rows, s.committed, s.nodes)
    && Anchored(depth, s.rows, s.shadow, s.nodes)
  }

  lemma PriorRootIsLive(depth: nat, s: Chain, column: map<int, Hash>, e: Event)
    requires Anchored(depth, s.rows, column, s.nodes) && e.Apply? && e.block - 1 in column
    requires forall x <- s.rows :: x.block < e.block
    ensures Represents(depth, s.nodes, column[e.block - 1], Live(s.rows, ContractStateLeaf))
  {
    UpToAll(s.rows, e.block - 1);
  }

  lemma ResolvedIsLive(depth: nat, s: Chain, column: map<int, Hash>, e: Event)
    requires Inv(depth, s) && Valid(depth, s, e) && e.Apply? && Anchored(depth, s.rows, column, s.nodes)
    ensures var (nodes, root) := Resolved(depth, s.rows + e.writes, column, s.nodes, e.block, e.touched, e.all);
            Represents(depth, nodes, root, Live(s.rows + e.writes, ContractStateLeaf)) && Extends(s.nodes, nodes)
  {
    var rows := s.rows + e.writes;
    assert forall x <- rows :: |x.key| == depth;
    if e.block - 1 in column {
      PriorRootIsLive(depth, s, column, e);
      ThreadBlock(depth, s.nodes, column[e.block - 1], s.rows, e.writes, e.block, e.touched, ContractStateLeaf);
      assert Resolved(depth, rows, column, s.nodes, e.block, e.touched, e.all)
          == Thread(s.nodes, column[e.block - 1], Updates(rows, e.touched, ContractStateLeaf));
    } else {
      BuildFull(depth, s.nodes, rows, e.all, ContractStateLeaf);
    }
  }

  lemma AnchoredAfterApply(depth: nat, s: Chain, column: map<int, Hash>, e: Event, nodes: NodeStore)
    requires Inv(depth, s) && Valid(depth, s, e) && e.Apply? && Anchored(depth, s.rows, column, s.nodes)
    requires forall b <- column :: b < e.block
    requires Extends(s.nodes, nodes) && ContentAddressed(nodes)
    ensures Anchored(depth, s.rows + e.writes, column, nodes)
  {
    forall b <- column
      ensures Represents(depth, nodes, column[b], Live(UpTo(s.rows + e.writes, b), ContractStateLeaf))
    {
      UpToAppend(s.rows, e.writes, b);
      HoldsForever(s.nodes, nodes, depth, column[b]);
    }
  }

  lemma AnchoredAfterReorg(depth: nat, rows: seq<StateRow>, column: map<int, Hash>, nodes: NodeStore, height: nat)
    requires Anchored(depth, rows, column, nodes)
    ensures Anchored(depth, UpTo(rows, height - 1), Below(column, height), nodes)
  {
    forall b <- Below(column, height)
      ensures UpTo(UpTo(rows, height - 1), b) == UpTo(rows, b)
    {
      UpToTwice(rows, height - 1, b);
    }
  }

  /** The column that receives this block's root stays anchored. */
  lemma AnchoredWithRoot(depth: nat, s: Chain, column: map<int, Hash>, e: Event, nodes: NodeStore, root: Hash)
    requires Inv(depth, s) && Valid(depth, s, e) && e.Apply? && Anchored(depth, s.rows, column, s.nodes)
    requires forall b <- column :: b < e.block
    requires (nodes, root) == Resolved(depth, s.rows + e.writes, column, s.nodes, e.block, e.touched, e.all)
    ensures ContentAddressed(nodes) && Extends(s.nodes, nodes)
    ensures Anchored(depth, s.rows + e.writes, column[e.block := root], nodes)
  {
    var rows := s.rows + e.writes;
    ResolvedIsLive(depth, s, column, e);
    AnchoredAfterApply(depth, s, column, e, nodes);
    assert UpTo(rows, e.block) == rows by {
      UpToAll(rows, e.block);
    }
    var grown := column[e.block := root];
    forall b <- grown
      ensures Represents(depth, nodes, grown[b], Live(UpTo(rows, b), ContractStateLeaf))
    {
    }
  }

  ghost predicate KeysFull(depth: nat, rows: seq<StateRow>) {
    forall x <- rows :: |x.key| == depth
  }

  lemma WritesKeepKeys(depth: nat, s: Chain, e: Event)
    requires Inv(depth, s) && Valid(depth, s, e) && e.Apply?
    ensures KeysFull(depth, s.rows + e.writes)
  {
  }

  lemma InertKeepsInv(depth: nat, s: Chain, e: Event)
    requires Inv(depth, s) && Valid(depth, s, e) && e.Apply? && e.mode == Inert
    ensures Inv(depth, Step(depth, s, e))
  {
    WritesKeepKeys(depth, s, e);
    AnchoredAfterApply(depth, s, s.committed, e, s.nodes);
    AnchoredAfterApply(depth, s, s.shadow, e, s.nodes);
  }

  lemma ArmedKeepsInv(depth: nat, s: Chain, e: Event)
    requires Inv(depth, s) && Valid(depth, s, e) && e.Apply? && e.mode == Armed
    ensures Inv(depth, Step(depth, s, e))
  {
    var (nodes, root) := Resolved(depth, s.rows + e.writes, s.committed, s.nodes, e.block, e.touched, e.all);
    WritesKeepKeys(depth, s, e);
    AnchoredWithRoot(depth, s, s.committed, e, nodes, root);
    AnchoredAfterApply(depth, s, s.shadow, e, nodes);
    assert Step(depth, s, e) == Chain(s.rows + e.writes, s.committed[e.block := root], s.shadow, nodes);
  }

  lemma ShadowKeepsInv(depth: nat, s: Chain, e: Event)
    requires Inv(depth, s) && Valid(depth, s, e) && e.Apply? && e.mode == Shadow
    ensures Inv(depth, Step(depth, s, e))
  {
    var (nodes, root) := Resolved(depth, s.rows + e.writes, s.shadow, s.nodes, e.block, e.touched, e.all);
    WritesKeepKeys(depth, s, e);
    AnchoredWithRoot(depth, s, s.shadow, e, nodes, root);
    AnchoredAfterApply(depth, s, s.committed, e, nodes);
    assert Step(depth, s, e) == Chain(s.rows + e.writes, s.committed, s.shadow[e.block := root], nodes);
  }

  lemma ReorgKeepsKeys(depth: nat, rows: seq<StateRow>, height: nat)
    requires KeysFull(depth, rows)
    ensures KeysFull(depth, UpTo(rows, height - 1))
  {
    UpToMembers(rows, height - 1);
  }

  lemma ReorgKeepsInv(depth: nat, s: Chain, e: Event)
    requires Inv(depth, s) && e.Reorg?
    ensures Inv(depth, Step(depth, s, e))
  {
    ReorgChain(depth, s, e.height);
    ReorgStep(depth, s, e);
  }

  ghost function Reorged(s: Chain, height: nat): Chain {
    Chain(UpTo(s.rows, height - 1), Below(s.committed, height), Below(s.shadow, height), s.nodes)
  }

  lemma ReorgStep(depth: nat, s: Chain, e: Event)
    requires e.Reorg?
    ensures Step(depth, s, e) == Reorged(s, e.height)
  {
  }

  lemma ReorgChain(depth: nat, s: Chain, height: nat)
    requires Inv(depth, s)
    ensures Inv(depth, Reorged(s, height))
  {
    ReorgKeepsKeys(depth, s.rows, height);
    AnchoredAfterReorg(depth, s.rows, s.committed, s.nodes, height);
    AnchoredAfterReorg(depth, s.rows, s.shadow, s.nodes, height);
  }

  lemma StepKeepsInv(depth: nat, s: Chain, e: Event)
    requires Inv(depth, s) && Valid(depth, s, e)
    ensures Inv(depth, Step(depth, s, e))
  {
    if e.Reorg? {
      ReorgKeepsInv(depth, s, e);
    } else if e.mode == Inert {
      InertKeepsInv(depth, s, e);
    } else if e.mode == Armed {
      ArmedKeepsInv(depth, s, e);
    } else {
      ShadowKeepsInv(depth, s, e);
    }
  }

  lemma {:induction false} RunKeepsInv(depth: nat, events: seq<Event>)
    requires ValidRun(depth, events)
    ensures Inv(depth, Run(depth, events))
  {
    if events != [] {
      var n := |events| - 1;
      assert forall i :: 0 <= i < n ==> events[..n][..i] == events[..i];
      RunKeepsInv(depth, events[..n]);
      StepKeepsInv(depth, Run(depth, events[..n]), events[n]);
    }
  }

  /** At every surviving height of every run, the threaded root of either column is the full build
      over the newest row per key of the surviving rows up to that height, whatever order the
      query lists the keys in. */
  lemma ThreadedRootIsFullBuild(depth: nat, events: seq<Event>, column: map<int, Hash>, block: int, all: seq<Key>)
    requires ValidRun(depth, events)
    requires column == Run(depth, events).committed || column == Run(depth, events).shadow
    requires block in column
    requires ListsKeys(all, AllKeys(UpTo(Run(depth, events).rows, block)))
    ensures var s := Run(depth, events);
            var rows := UpTo(s.rows, block);
            && column[block] == Root(depth, Live(rows, ContractStateLeaf))
            && column[block] == Thread(s.nodes, Empty(depth), LiveUpdates(rows, all, ContractStateLeaf)).1
            && Holds(s.nodes, depth, column[block])
  {
    RunKeepsInv(depth, events);
    var s := Run(depth, events);
    UpToMembers(s.rows, block);
    BuildFull(depth, s.nodes, UpTo(s.rows, block), all, ContractStateLeaf);
  }

  // ---------------------------------------------------------------------------
  // Which blocks have a root, and in which column
  // ---------------------------------------------------------------------------

  /** A committed block writes its root in the committed column only, a shadow block in the shadow column only,
      an inert one nowhere; roots already stored stay as they are. */
  lemma ColumnsStayApart(depth: nat, s: Chain, e: Event)
    requires Valid(depth, s, e) && e.Apply?
    ensures var t := Step(depth, s, e);
            && t.committed.Keys == s.committed.Keys + (if e.mode == Armed then {e.block} else {})
            && t.shadow.Keys == s.shadow.Keys + (if e.mode == Shadow then {e.block} else {})
            && (forall b <- s.committed :: t.committed[b] == s.committed[b])
            && (forall b <- s.shadow :: t.shadow[b] == s.shadow[b])
            && t.rows == s.rows + e.writes
  {
    var (nodes, root) := Resolved(depth, s.rows + e.writes, if e.mode == Armed then s.committed else s.shadow, s.nodes,
                                  e.block, e.touched, e.all);
    match e.mode
    case Inert =>
    case Armed => assert Step(depth, s, e).committed == s.committed[e.block := root];
    case Shadow => assert Step(depth, s, e).shadow == s.shadow[e.block := root];
  }

  /** A reorg leaves of either column, and of the rows, exactly what blocks below its height wrote. */
  lemma ReorgKeepsBelow(depth: nat, s: Chain, e: Event)
    requires e.Reorg?
    ensures var t := Step(depth, s, e);
            && (forall b :: b in t.committed <==> b in s.committed && b < e.height)
            && (forall b :: b in t.shadow <==> b in s.shadow && b < e.height)
            && (forall b <- t.committed :: t.committed[b] == s.committed[b])
            && (forall b <- t.shadow :: t.shadow[b] == s.shadow[b])
            && (forall x :: x in t.rows <==> x in s.rows && x.block < e.height)
  {
    UpToMembers(s.rows, e.height - 1);
  }

  ghost function BelowHeight(blocks: seq<Event>, height: nat): seq<Event> {
    if blocks == [] then []
    else
      var n := |blocks| - 1;
      var before := BelowHeight(blocks[..n], height);
      if blocks[n].Apply? && blocks[n].block < height then before + [blocks[n]] else before
  }

  /** The blocks still standing after a run of blocks and reorgs. */
  ghost function Standing(events: seq<Event>): seq<Event> {
    if events == [] then []
    else
      var n := |events| - 1;
      match events[n]
      case Reorg(height) => BelowHeight(Standing(events[..n]), height)
      case Apply(_, _, _, _, _) => Standing(events[..n]) + [events[n]]
  }

  ghost function Blocks(blocks: seq<Event>, mode: Mode): set<int> {
    set e | e in blocks && e.Apply? && e.mode == mode :: e.block
  }

  ghost function Writes(blocks: seq<Event>): seq<StateRow> {
    if blocks == [] then []
    else
      var n := |blocks| - 1;
      Writes(blocks[..n]) + (if blocks[n].Apply? then blocks[n].writes else [])
  }

  /** Every row of a block carries its height. */
  ghost predicate Stamped(blocks: seq<Event>) {
    forall e <- blocks :: e.Apply? && forall x <- e.writes :: x.block == e.block
  }

  lemma {:induction false} UpToConcat(rows: seq<StateRow>, more: seq<StateRow>, block: int)
    ensures UpTo(rows + more, block) == UpTo(rows, block) + UpTo(more, block)
  {
    if more == [] {
      assert rows + more == rows;
    } else {
      var n := |more| - 1;
      assert (rows + more)[..|rows| + n] == rows + more[..n];
      UpToConcat(rows, more[..n], block);
    }
  }

  lemma {:induction false} UpToNone(rows: seq<StateRow>, block: int)
    requires forall x <- rows :: x.block > block
    ensures UpTo(rows, block) == []
  {
    if rows != [] {
      UpToNone(rows[..|rows| - 1], block);
    }
  }

  lemma {:induction false} WritesBelow(blocks: seq<Event>, height: nat)
    requires Stamped(blocks)
    ensures Stamped(BelowHeight(blocks, height))
    ensures Writes(BelowHeight(blocks, height)) == UpTo(Writes(blocks), height - 1)
    ensures forall e :: e in BelowHeight(blocks, height) <==> e in blocks && e.Apply? && e.block < height
  {
    if blocks != [] {
      var n := |blocks| - 1;
      var e := blocks[n];
      assert blocks == blocks[..n] + [e];
      WritesBelow(blocks[..n], height);
      UpToConcat(Writes(blocks[..n]), e.writes, height - 1);
      if e.block < height {
        UpToAll(e.writes, height - 1);
        var before := BelowHeight(blocks[..n], height);
        assert (before + [e])[..|before|] == before;
      } else {
        UpToNone(e.writes, height - 1);
      }
    }
  }

  lemma BlocksSnoc(blocks: seq<Event>, e: Event, mode: Mode)
    requires e.Apply?
    ensures Blocks(blocks + [e], mode) == Blocks(blocks, mode) + (if e.mode == mode then {e.block} else {})
  {
    forall x | x in blocks + [e]
      ensures x == e || x in blocks
    {
    }
    assert forall x <- blocks :: x in blocks + [e];
    assert e in blocks + [e];
  }

  ghost predicate Holding(s: Chain, blocks: seq<Event>) {
    && Stamped(blocks) && s.rows == Writes(blocks)
    && s.committed.Keys == Blocks(blocks, Armed) && s.shadow.Keys == Blocks(blocks, Shadow)
  }

  lemma ApplyHolds(depth: nat, s: Chain, e: Event, blocks: seq<Event>)
    requires Valid(depth, s, e) && e.Apply? && Holding(s, blocks)
    ensures Holding(Step(depth, s, e), blocks + [e])
  {
    ColumnsStayApart(depth, s, e);
    BlocksSnoc(blocks, e, Armed);
    BlocksSnoc(blocks, e, Shadow);
    assert (blocks + [e])[..|blocks|] == blocks;
  }

  lemma ReorgHolds(depth: nat, s: Chain, e: Event, blocks: seq<Event>)
    requires e.Reorg? && Holding(s, blocks)
    ensures Holding(Step(depth, s, e), BelowHeight(blocks, e.height))
  {
    var t, kept := Step(depth, s, e), BelowHeight(blocks, e.height);
    ReorgKeepsBelow(depth, s, e);
    WritesBelow(blocks, e.height);
    forall mode: Mode
      ensures Blocks(kept, mode) == set b | b in Blocks(blocks, mode) && b < e.height
    {
    }
    assert t.committed.Keys == Blocks(kept, Armed);
    assert t.shadow.Keys == Blocks(kept, Shadow);
  }

  lemma {:induction false} RunHoldsStanding(depth: nat, events: seq<Event>)
    requires ValidRun(depth, events)
    ensures Holding(Run(depth, events), Standing(events))
  {
    if events != [] {
      var n := |events| - 1;
      assert forall i :: 0 <= i < n ==> events[..n][..i] == events[..i];
      RunHoldsStanding(depth, events[..n]);
      if events[n].Apply? {
        ApplyHolds(depth, Run(depth, events[..n]), events[n], Standing(events[..n]));
      } else {
        ReorgHolds(depth, Run(depth, events[..n]), events[n], Standing(events[..n]));
      }
    }
  }

  /** After any run the rows are those of the standing blocks, and a block has a committed root exactly if it
      stands and was armed, a shadow root exactly if it stands and was shadow-computed. */
  lemma StandingBlocksHaveRoots(depth: nat, events: seq<Event>)
    requires ValidRun(depth, events)
    ensures var s := Run(depth, events);
            && s.rows == Writes(Standing(events))
            && (forall b :: b in s.committed <==>
                  exists e <- Standing(events) :: e.Apply? && e.mode == Armed && e.block == b)
            && (forall b :: b in s.shadow <==>
                  exists e <- Standing(events) :: e.Apply? && e.mode == Shadow && e.block == b)
  {
    RunHoldsStanding(depth, events);
    var s := Run(depth, events);
    assert forall b :: b in s.committed <==> b in Blocks(Standing(events), Armed);
    assert forall b :: b in s.shadow <==> b in Blocks(Standing(events), Shadow);
  }

  /** What a key of the committed state holds: the text of its newest row, the empty text included, and nothing
      once that row is a deletion; different texts commit different leaves. */
  lemma StateKeyReads(rows: seq<StateRow>, key: Key, text: string)
    ensures key in Live(rows, ContractStateLeaf) <==> Latest(rows, key).Some? && Latest(rows, key).value.value.Some?
    ensures key in Live(rows, ContractStateLeaf) ==>
              (Live(rows, ContractStateLeaf)[key] == LeafHash(text) <==> Latest(rows, key).value.value == Some(text))
  {
    LiveReads(rows, ContractStateLeaf, key);
  }

  /** With ids growing in append order, that root commits the state left by replaying the
      surviving writes in order. */
  lemma ThreadedRootIsReplay(depth: nat, events: seq<Event>, block: int)
    requires ValidRun(depth, events) && block in Run(depth, events).committed
    requires Ascending(Run(depth, events).rows)
    ensures Run(depth, events).committed[block]
            == Root(depth, Replayed(UpTo(Run(depth, events).rows, block), ContractStateLeaf))
  {
    RunKeepsInv(depth, events);
    UpToAscending(Run(depth, events).rows, block);
    LiveIsReplay(UpTo(Run(depth, events).rows, block), ContractStateLeaf);
  }

  /** Dropping tombstones before taking the newest row resurrects a deleted key. */
  lemma FilteringFirstResurrects(key: Key, text: string)
    ensures var rows := [Row(1, 1, key, Some(text)), Row(2, 2, key, None)];
            var filtered := [rows[0]];
            && (forall x :: x in filtered <==> x in rows && x.value.Some?)
            && LeafNow(rows, key, ContractStateLeaf) == None
            && LeafNow(filtered, key, ContractStateLeaf) == Some(LeafHash(text))
  {
    var rows := [Row(1, 1, key, Some(text)), Row(2, 2, key, None)];
    assert rows[..1] == [rows[0]];
    assert Latest(rows[..1], key) == Some(rows[0]);
  }
}
