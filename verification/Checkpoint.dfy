/** Local verification of a checkpoint: counting the qualified validators with a verifying signature, and the
    two quorum rules, by count and by stake.
 */
module Checkpoint {

  import opened Hashing

  /** A weight as served: absent, not a number, a number in exponent form, which may be beyond the largest
      finite one, or a plain decimal. */
  datatype Weight = NoWeight | Garbage | Exponent(finite: bool, value: real) | Decimal(value: real)

  /** A bare public key, or a key with its staking source and weight. Keys are lower-cased. */
  datatype Validator = Bare(pubkey: string) | Staked(pubkey: string, source: Option<string>, weight: Weight)

  datatype Signature = Signature(pubkey: string, sig: string)

  function Keys(validators: seq<Validator>): set<string> {
    set v | v in validators :: v.pubkey
  }

  /** The qualified keys with some verifying entry. */
  ghost function Signers(qualified: set<string>, sigs: seq<Signature>,
                         verifies: (string, string) -> bool): set<string> {
    set s | s in sigs && s.pubkey != "" && s.pubkey in qualified && verifies(s.sig, s.pubkey) :: s.pubkey
  }

  // ---------------------------------------------------------------------------
  // Quorum by count
  // ---------------------------------------------------------------------------

  function Quorum(n: nat): nat {
    if n <= 1 then 1
    else
      var byzantine := 2 * ((n - 1) / 3) + 1;
      var majority := (n + 2) / 2;
      if byzantine > majority then byzantine else majority
  }

  /** A quorum is more than half of the validators, and the honest ones alone can form it. */
  lemma QuorumBounds(n: nat)
    requires n > 0
    ensures 2 * Quorum(n) > n
    ensures Quorum(n) <= n - (n - 1) / 3
    ensures forall f: nat :: n == 3 * f + 1 ==> Quorum(n) == 2 * f + 1
    // It is the least number that is more than half and more than twice the tolerated faults.
    ensures Quorum(n) > 2 * ((n - 1) / 3)
    ensures forall q: nat :: 2 * q > n && q > 2 * ((n - 1) / 3) ==> Quorum(n) <= q
  {
    var f := (n - 1) / 3;
    assert n == 3 * f + 1 || n == 3 * f + 2 || n == 3 * f + 3;
  }

  lemma Overlap(a: set<string>, b: set<string>, all: set<string>)
    requires a <= all && b <= all
    ensures |a * b| >= |a| + |b| - |all|
  {
    assert |a + b| == |a| + |b| - |a * b|;
    SubsetSize(a + b, all);
  }

  lemma SubsetSize(a: set<string>, b: set<string>)
    requires a <= b
    ensures |a| <= |b|
  {
    assert b == a + (b - a);
  }

  /** Two signer sets accepted over the same validators share a signer, and f + 1 of them when there are
      3f + 1 validators: some honest validator signed both. */
  lemma AcceptedSetsIntersect(qualified: set<string>, a: set<string>, b: set<string>, f: nat)
    requires a <= qualified && b <= qualified && qualified != {}
    requires |a| >= Quorum(|qualified|) && |b| >= Quorum(|qualified|)
    ensures a * b != {}
    ensures |qualified| == 3 * f + 1 ==> |a * b| >= f + 1
  {
    QuorumBounds(|qualified|);
    Overlap(a, b, qualified);
    assert |a * b| >= 1;
  }

  // ---------------------------------------------------------------------------
  // Quorum by stake
  // ---------------------------------------------------------------------------

  ghost function Sum(sources: set<string>, weight: map<string, real>): real
    requires sources <= weight.Keys
  {
    if sources == {} then 0.0 else var s :| s in sources; weight[s] + Sum(sources - {s}, weight)
  }

  lemma {:induction false} SumInsert(sources: set<string>, weight: map<string, real>, x: string)
    requires sources <= weight.Keys && x in sources
    ensures Sum(sources, weight) == weight[x] + Sum(sources - {x}, weight)
    decreases sources
  {
    var s :| s in sources && Sum(sources, weight) == weight[s] + Sum(sources - {s}, weight);
    if s != x {
      SumInsert(sources - {s}, weight, x);
      SumInsert(sources - {x}, weight, s);
      assert sources - {s} - {x} == sources - {x} - {s};
    }
  }

  lemma {:induction false} SumMonotone(a: set<string>, b: set<string>, weight: map<string, real>)
    requires a <= b <= weight.Keys && forall s <- weight :: weight[s] >= 0.0
    ensures 0.0 <= Sum(a, weight) <= Sum(b, weight)
    decreases b
  {
    if b != {} {
      var x :| x in b;
      SumInsert(b, weight, x);
      if x in a {
        SumInsert(a, weight, x);
        SumMonotone(a - {x}, b - {x}, weight);
      } else {
        SumMonotone(a, b - {x}, weight);
      }
    }
  }

  lemma {:induction false} SumBoth(a: set<string>, b: set<string>, weight: map<string, real>)
    requires a + b <= weight.Keys
    ensures Sum(a, weight) + Sum(b, weight) == Sum(a + b, weight) + Sum(a * b, weight)
    decreases b
  {
    if b == {} {
      assert a + b == a && a * b == {};
    } else {
      var x :| x in b;
      SumInsert(b, weight, x);
      SumBoth(a, b - {x}, weight);
      if x in a {
        assert a + (b - {x}) == a + b;
        SumInsert(a * b, weight, x);
        assert a * (b - {x}) == a * b - {x};
      } else {
        SumInsert(a + b, weight, x);
        assert a + (b - {x}) == a + b - {x};
        assert a * (b - {x}) == a * b;
      }
    }
  }

  /** Two source sets that each carry more than two thirds of the stake share sources with more than one third
      of it. */
  lemma StakeQuorumsIntersect(weight: map<string, real>, a: set<string>, b: set<string>)
    requires a <= weight.Keys && b <= weight.Keys && forall s <- weight :: weight[s] >= 0.0
    requires 3.0 * Sum(a, weight) > 2.0 * Sum(weight.Keys, weight)
    requires 3.0 * Sum(b, weight) > 2.0 * Sum(weight.Keys, weight)
    ensures 3.0 * Sum(a * b, weight) > Sum(weight.Keys, weight)
    ensures a * b != {}
  {
    SumBoth(a, b, weight);
    SumMonotone(a + b, weight.Keys, weight);
    SumMonotone({}, weight.Keys, weight);
  }

  predicate BlankSource(v: Validator) {
    v.Bare? || v.source.None? || Blank(v.source.value)
  }

  predicate Blank(s: string) {
    forall c <- s :: c == ' ' || c == '\t' || c == '\n' || c == '\r'
  }

  predicate IsWeightedEntry(v: Validator) {
    !BlankSource(v) && ((v.weight.Exponent? && v.weight.finite) || v.weight.Decimal?) && v.weight.value >= 0.0
  }

  ghost function TrimLeft(s: string): string {
    if s != [] && s[0] in {' ', '\t', '\n', '\r'} then TrimLeft(s[1..]) else s
  }

  ghost function TrimRight(s: string): string {
    if s != [] && s[|s| - 1] in {' ', '\t', '\n', '\r'} then TrimRight(s[..|s| - 1]) else s
  }

  lemma BlankSplits(a: string, b: string)
    ensures Blank(a + b) <==> Blank(a) && Blank(b)
  {
    assert forall c <- a :: c in a + b;
    assert forall c <- b :: c in a + b;
  }

  lemma {:induction false} BlankIsTrimmedAway(s: string)
    ensures TrimRight(s) == "" <==> Blank(s)
  {
    if s != [] && s[|s| - 1] in {' ', '\t', '\n', '\r'} {
      BlankIsTrimmedAway(s[..|s| - 1]);
      BlankSplits(s[..|s| - 1], [s[|s| - 1]]);
      assert s == s[..|s| - 1] + [s[|s| - 1]];
    } else if s != [] {
      assert s[|s| - 1] in s;
    }
  }

  lemma {:induction false} TrimmedIsBlank(s: string)
    ensures TrimRight(TrimLeft(s)) == "" <==> Blank(s)
  {
    if s != [] && s[0] in {' ', '\t', '\n', '\r'} {
      TrimmedIsBlank(s[1..]);
      BlankSplits([s[0]], s[1..]);
      assert s == [s[0]] + s[1..];
    } else {
      BlankIsTrimmedAway(s);
    }
  }

  /** An entry of the stake-weighted regime: a source that is not all white space and a number that is finite and
      not negative. */
  ghost predicate CarriesWeight(v: Validator) {
    match v
    case Bare(_) => false
    case Staked(_, source, weight) =>
      && source.Some? && TrimRight(TrimLeft(source.value)) != ""
      && match weight
         case Decimal(x) => x >= 0.0
         case Exponent(finite, x) => finite && x >= 0.0
         case _ => false
  }

  lemma WeightedEntryCarriesWeight(v: Validator)
    ensures IsWeightedEntry(v) <==> CarriesWeight(v)
    ensures BlankSource(v) <==> v.Bare? || v.source.None? || TrimRight(TrimLeft(v.source.value)) == ""
  {
    if v.Staked? && v.source.Some? {
      TrimmedIsBlank(v.source.value);
    }
  }

  /** The first entry of each source fixes its weight. */
  ghost predicate WeighsSources(validators: seq<Validator>, weight: map<string, real>) {
    && (forall v <- validators :: v.Staked? && v.source.Some? ==> v.source.value in weight)
    && (forall s <- weight :: exists i :: FirstOf(validators, i, s) && validators[i].weight == Decimal(weight[s]))
  }

  /** The last entry of each key fixes its source. */
  ghost predicate PlacesKeys(validators: seq<Validator>, sourceOf: map<string, string>) {
    && (forall v <- validators :: v.pubkey in sourceOf)
    && (forall k <- sourceOf :: exists i :: LastOf(validators, i, k) && validators[i].source == Some(sourceOf[k]))
  }

  ghost predicate Indexes(validators: seq<Validator>, weight: map<string, real>, sourceOf: map<string, string>) {
    (forall v <- validators :: !BlankSource(v)) && WeighsSources(validators, weight) && PlacesKeys(validators, sourceOf)
  }

  ghost predicate FirstOf(validators: seq<Validator>, i: int, source: string) {
    && 0 <= i < |validators| && validators[i].Staked? && validators[i].source == Some(source)
    && forall k :: 0 <= k < i ==> !(validators[k].Staked? && validators[k].source == Some(source))
  }

  ghost predicate LastOf(validators: seq<Validator>, i: int, key: string) {
    && 0 <= i < |validators| && validators[i].Staked? && validators[i].pubkey == key
    && forall k :: i < k < |validators| ==> validators[k].pubkey != key
  }

  ghost function AsSet(keys: seq<string>): set<string> {
    set k | k in keys
  }

  ghost function SourcesOf(signers: set<string>, sourceOf: map<string, string>): set<string> {
    set k | k in signers && k in sourceOf :: sourceOf[k]
  }

  lemma FirstIsRead(validators: seq<Validator>, w: map<string, real>, i: int, source: string)
    requires WeighsSources(validators, w) && FirstOf(validators, i, source)
    ensures source in w && validators[i].weight == Decimal(w[source])
  {
    assert validators[i] in validators;
    var k :| FirstOf(validators, k, source) && validators[k].weight == Decimal(w[source]);
    assert i == k;
  }

  lemma LastIsRead(validators: seq<Validator>, s: map<string, string>, i: int, key: string)
    requires PlacesKeys(validators, s) && LastOf(validators, i, key)
    ensures key in s && validators[i].source == Some(s[key])
  {
    assert validators[i] in validators;
    var k :| LastOf(validators, k, key) && validators[k].source == Some(s[key]);
    assert i == k;
  }

  lemma SameWeights(validators: seq<Validator>, w: map<string, real>, w2: map<string, real>, x: string)
    requires WeighsSources(validators, w) && WeighsSources(validators, w2) && x in w
    ensures x in w2 && w[x] == w2[x]
  {
    var i :| FirstOf(validators, i, x) && validators[i].weight == Decimal(w[x]);
    FirstIsRead(validators, w2, i, x);
  }

  lemma SamePlaces(validators: seq<Validator>, s: map<string, string>, s2: map<string, string>, x: string)
    requires PlacesKeys(validators, s) && PlacesKeys(validators, s2) && x in s
    ensures x in s2 && s[x] == s2[x]
  {
    var i :| LastOf(validators, i, x) && validators[i].source == Some(s[x]);
    LastIsRead(validators, s2, i, x);
  }

  lemma WeightsUnique(validators: seq<Validator>, w: map<string, real>, w2: map<string, real>)
    requires WeighsSources(validators, w) && WeighsSources(validators, w2)
    ensures w == w2
  {
    assert forall x | x in w :: x in w2 && w[x] == w2[x] by {
      forall x | x in w
        ensures x in w2 && w[x] == w2[x]
      {
        SameWeights(validators, w, w2, x);
      }
    }
    assert forall x | x in w2 :: x in w by {
      forall x | x in w2
        ensures x in w
      {
        SameWeights(validators, w2, w, x);
      }
    }
  }

  lemma PlacesUnique(validators: seq<Validator>, s: map<string, string>, s2: map<string, string>)
    requires PlacesKeys(validators, s) && PlacesKeys(validators, s2)
    ensures s == s2
  {
    assert forall x | x in s :: x in s2 && s[x] == s2[x] by {
      forall x | x in s
        ensures x in s2 && s[x] == s2[x]
      {
        SamePlaces(validators, s, s2, x);
      }
    }
    assert forall x | x in s2 :: x in s by {
      forall x | x in s2
        ensures x in s
      {
        SamePlaces(validators, s2, s, x);
      }
    }
  }

  /** A snapshot has at most one reading. */
  lemma IndexUnique(validators: seq<Validator>, w: map<string, real>, s: map<string, string>, w2: map<string, real>,
                    s2: map<string, string>)
    requires Indexes(validators, w, s) && Indexes(validators, w2, s2)
    ensures w == w2 && s == s2
  {
    WeightsUnique(validators, w, w2);
    PlacesUnique(validators, s, s2);
  }

  ghost predicate Readable(validators: seq<Validator>) {
    exists w, s :: Indexes(validators, w, s)
  }

  /** Fails closed on a blank source and on a source whose first weight is not a plain decimal. */
  method IndexStakeSources(validators: seq<Validator>)
    returns (ok: bool, weight: map<string, real>, sourceOf: map<string, string>)
    ensures ok ==> Indexes(validators, weight, sourceOf)
    ensures !ok ==> !Readable(validators)
  {
    ok, weight, sourceOf := true, map[], map[];
    for i := 0 to |validators|
      invariant Indexes(validators[..i], weight, sourceOf)
    {
      var v := validators[i];
      ghost var was := validators[..i];
      assert validators[..i + 1] == was + [v];
      if BlankSource(v) {
        assert v in validators;
        return false, map[], map[];
      }
      var source := v.source.value;
      if source !in weight {
        if !v.weight.Decimal? {
          UnweightedUnreadable(validators, i);
          return false, map[], map[];
        }
        WeightsGrow(was, v, weight, weight[source := v.weight.value]);
        weight := weight[source := v.weight.value];
      } else {
        WeightsGrow(was, v, weight, weight);
      }
      PlacesGrow(was, v, sourceOf);
      sourceOf := sourceOf[v.pubkey := source];
    }
    assert validators[..|validators|] == validators;
  }

  lemma UnweightedUnreadable(validators: seq<Validator>, i: nat)
    requires i < |validators| && !BlankSource(validators[i]) && !validators[i].weight.Decimal?
    requires forall k :: 0 <= k < i ==> !(validators[k].Staked? && validators[k].source == validators[i].source)
    ensures !Readable(validators)
  {
    if Readable(validators) {
      var w, s :| Indexes(validators, w, s);
      FirstIsRead(validators, w, i, validators[i].source.value);
    }
  }

  lemma WeightsGrow(was: seq<Validator>, v: Validator, weight: map<string, real>, grown: map<string, real>)
    requires WeighsSources(was, weight) && !BlankSource(v)
    requires if v.source.value in weight then grown == weight
             else v.weight.Decimal? && grown == weight[v.source.value := v.weight.value]
    ensures WeighsSources(was + [v], grown)
  {
    var now := was + [v];
    forall s | s in grown
      ensures exists i :: FirstOf(now, i, s) && now[i].weight == Decimal(grown[s])
    {
      if s in weight {
        var i :| FirstOf(was, i, s) && was[i].weight == Decimal(weight[s]);
        assert FirstOf(now, i, s) && now[i] == was[i];
      } else {
        assert forall k :: 0 <= k < |was| ==> was[k] in was;
        assert FirstOf(now, |was|, s);
      }
    }
  }

  lemma PlacesGrow(was: seq<Validator>, v: Validator, sourceOf: map<string, string>)
    requires PlacesKeys(was, sourceOf) && !BlankSource(v)
    ensures PlacesKeys(was + [v], sourceOf[v.pubkey := v.source.value])
  {
    var now, after := was + [v], sourceOf[v.pubkey := v.source.value];
    forall k | k in after
      ensures exists i :: LastOf(now, i, k) && now[i].source == Some(after[k])
    {
      if k == v.pubkey {
        assert LastOf(now, |was|, k);
      } else {
        var i :| LastOf(was, i, k) && was[i].source == Some(sourceOf[k]);
        assert LastOf(now, i, k) && now[i] == was[i];
      }
    }
  }

  /** S, or fail closed on a negative weight or a total that is not positive. */
  method SumStakeWeights(weight: map<string, real>) returns (total: Option<real>)
    ensures total.Some? <==> (forall s <- weight :: weight[s] >= 0.0) && Sum(weight.Keys, weight) > 0.0
    ensures total.Some? ==> total.value == Sum(weight.Keys, weight)
  {
    var left, sum := weight.Keys, 0.0;
    while left != {}
      invariant left <= weight.Keys && sum + Sum(left, weight) == Sum(weight.Keys, weight)
      invariant forall s <- weight :: s !in left ==> weight[s] >= 0.0
      decreases |left|
    {
      var s :| s in left;
      if weight[s] < 0.0 {
        return None;
      }
      SumInsert(left, weight, s);
      left, sum := left - {s}, sum + weight[s];
    }
    if sum <= 0.0 {
      return None;
    }
    return Some(sum);
  }

  /** The weight of the distinct sources the signers stand for. */
  method SumSignerStake(weight: map<string, real>, sourceOf: map<string, string>, signers: seq<string>)
    returns (tally: real)
    requires sourceOf.Values <= weight.Keys
    ensures SourcesOf(AsSet(signers), sourceOf) <= weight.Keys
    ensures tally == Sum(SourcesOf(AsSet(signers), sourceOf), weight)
  {
    var counted: set<string>, seen: set<string> := {}, {};
    tally := 0.0;
    for i := 0 to |signers|
      invariant seen == AsSet(signers[..i])
      invariant counted == SourcesOf(seen, sourceOf) <= weight.Keys
      invariant tally == Sum(counted, weight)
    {
      var key := signers[i];
      assert signers[..i + 1] == signers[..i] + [key];
      var before := seen;
      seen := seen + {key};
      if key !in before && key in sourceOf {
        var source := sourceOf[key];
        assert SourcesOf(seen, sourceOf) == SourcesOf(before, sourceOf) + {source};
        if source !in counted {
          counted := counted + {source};
          SumInsert(counted, weight, source);
          assert counted - {source} == SourcesOf(before, sourceOf);
          tally := tally + weight[source];
        }
      } else {
        assert SourcesOf(seen, sourceOf) == SourcesOf(before, sourceOf);
      }
    }
    assert signers[..|signers|] == signers;
  }

  /** The snapshot reads, its weights are not negative, its total is positive, and the signers' sources carry
      more than two thirds of it. */
  ghost predicate StakeAccepts(validators: seq<Validator>, signers: set<string>, weight: map<string, real>,
                               sourceOf: map<string, string>) {
    && Indexes(validators, weight, sourceOf)
    && (forall s <- weight :: weight[s] >= 0.0) && Sum(weight.Keys, weight) > 0.0
    && SourcesOf(signers, sourceOf) <= weight.Keys
    && 3.0 * Sum(SourcesOf(signers, sourceOf), weight) > 2.0 * Sum(weight.Keys, weight)
  }

  lemma SourcesAreWeighed(validators: seq<Validator>, weight: map<string, real>, sourceOf: map<string, string>)
    requires Indexes(validators, weight, sourceOf)
    ensures sourceOf.Values <= weight.Keys
  {
    forall x | x in sourceOf.Values
      ensures x in weight
    {
      var k :| k in sourceOf && sourceOf[k] == x;
      var i :| LastOf(validators, i, k) && validators[i].source == Some(x);
      assert validators[i] in validators;
    }
  }

  method MeetsStakeThreshold(validators: seq<Validator>, truncated: bool, signers: seq<string>) returns (ok: bool)
    ensures ok <==> !truncated && exists w, s :: StakeAccepts(validators, AsSet(signers), w, s)
  {
    if truncated {
      return false;
    }
    var indexed, weight, sourceOf := IndexStakeSources(validators);
    if !indexed {
      return false;
    }
    SourcesAreWeighed(validators, weight, sourceOf);
    var total := SumStakeWeights(weight);
    ghost var keys := AsSet(signers);
    if total.Some? {
      var tally := SumSignerStake(weight, sourceOf, signers);
      ok := 3.0 * tally > 2.0 * total.value;
      assert ok ==> StakeAccepts(validators, keys, weight, sourceOf);
    } else {
      ok := false;
    }
    forall w, s | StakeAccepts(validators, keys, w, s)
      ensures w == weight && s == sourceOf
    {
      IndexUnique(validators, w, s, weight, sourceOf);
    }
  }

  /** Two signer sets accepted by stake over one snapshot share sources with more than a third of it. */
  lemma StakeAcceptedIntersect(validators: seq<Validator>, a: set<string>, b: set<string>,
                               wa: map<string, real>, sa: map<string, string>, wb: map<string, real>,
                               sb: map<string, string>)
    requires StakeAccepts(validators, a, wa, sa) && StakeAccepts(validators, b, wb, sb)
    ensures wa == wb && sa == sb
    ensures var common := SourcesOf(a, sa) * SourcesOf(b, sa);
            common != {} && 3.0 * Sum(common, wa) > Sum(wa.Keys, wa)
  {
    IndexUnique(validators, wa, sa, wb, sb);
    StakeQuorumsIntersect(wa, SourcesOf(a, sa), SourcesOf(b, sa));
  }

  // ---------------------------------------------------------------------------
  // The verifier
  // ---------------------------------------------------------------------------

  /** One pass over the signatures. A key counts once its signature verifies, so neither order, duplicates nor
      garbage entries change the count. */
  method CountSigners(qualified: set<string>, sigs: seq<Signature>, verifies: (string, string) -> bool)
    returns (validSigs: nat, validSigners: seq<string>)
    ensures AsSet(validSigners) == Signers(qualified, sigs, verifies)
    ensures validSigs == |Signers(qualified, sigs, verifies)| == |validSigners|
  {
    validSigs, validSigners := 0, [];
    var seen: set<string> := {};
    for i := 0 to |sigs|
      invariant seen == Signers(qualified, sigs[..i], verifies) == AsSet(validSigners)
      invariant validSigs == |seen| == |validSigners|
    {
      var s := sigs[i];
      assert sigs[..i + 1] == sigs[..i] + [s];
      if s.pubkey != "" && s.pubkey !in seen && s.pubkey in qualified && verifies(s.sig, s.pubkey) {
        seen := seen + {s.pubkey};
        validSigs := validSigs + 1;
        validSigners := validSigners + [s.pubkey];
      }
    }
    assert sigs[..|sigs|] == sigs;
  }

  /** `wellFormed` says that the canonical string exists, carries the commitment its height requires and no
      supersession its height forbids. */
  method VerifyCheckpoint(wellFormed: bool, weighted: bool, truncated: bool, validators: seq<Validator>,
                          sigs: seq<Signature>,
                          verifies: (string, string) -> bool)
    returns (valid: bool, validSigs: nat, quorum: nat)
    ensures quorum == Quorum(|Keys(validators)|)
    ensures validSigs == if wellFormed then |Signers(Keys(validators), sigs, verifies)| else 0
    ensures !weighted ==>
              (valid <==>
               && wellFormed && validators != []
               && |Signers(Keys(validators), sigs, verifies)| >= Quorum(|Keys(validators)|))
    ensures weighted ==>
              (valid <==> wellFormed && !truncated && (forall v <- validators :: CarriesWeight(v))
                          && exists w, s :: StakeAccepts(validators, Signers(Keys(validators), sigs, verifies), w, s))
  {
    var qualified := Keys(validators);
    var n := |qualified|;
    var byzantine, majority := 2 * ((n - 1) / 3) + 1, (n + 2) / 2;
    quorum := if n <= 1 then 1 else if byzantine > majority then byzantine else majority;
    if !wellFormed {
      return false, 0, quorum;
    }
    var validSigners;
    validSigs, validSigners := CountSigners(qualified, sigs, verifies);
    if weighted {
      var hasWeights := |validators| > 0 && forall v :: v in validators ==> IsWeightedEntry(v);
      var met := MeetsStakeThreshold(validators, truncated, validSigners);
      if validators == [] {
        EmptySnapshotRefuses(Signers(qualified, sigs, verifies));
      }
      valid := hasWeights && met;
      forall v | v in validators
        ensures IsWeightedEntry(v) <==> CarriesWeight(v)
      {
        WeightedEntryCarriesWeight(v);
      }
    } else {
      if validators != [] {
        assert validators[0].pubkey in qualified;
      }
      valid := n > 0 && validSigs >= quorum;
    }
  }

  /** Two checkpoints accepted by count over one validator set, each under its own canonical string, share a
      signer who signed both. */
  lemma AcceptedCheckpointsShareSigner(validators: seq<Validator>, sigs: seq<Signature>,
                                       verifies: (string, string) -> bool,
                                       sigs2: seq<Signature>, verifies2: (string, string) -> bool, f: nat)
    requires validators != []
    requires |Signers(Keys(validators), sigs, verifies)| >= Quorum(|Keys(validators)|)
    requires |Signers(Keys(validators), sigs2, verifies2)| >= Quorum(|Keys(validators)|)
    ensures exists k, a, b ::
              a in sigs && b in sigs2 && a.pubkey == k && b.pubkey == k && verifies(a.sig, k) && verifies2(b.sig, k)
    ensures |Keys(validators)| == 3 * f + 1 ==>
              |Signers(Keys(validators), sigs, verifies) * Signers(Keys(validators), sigs2, verifies2)| >= f + 1
  {
    var a, b := Signers(Keys(validators), sigs, verifies), Signers(Keys(validators), sigs2, verifies2);
    assert validators[0].pubkey in Keys(validators);
    AcceptedSetsIntersect(Keys(validators), a, b, f);
    var k :| k in a * b;
    var x :| x in sigs && x.pubkey == k && verifies(x.sig, k);
    var y :| y in sigs2 && y.pubkey == k && verifies2(y.sig, k);
  }

  lemma EmptySnapshotRefuses(signers: set<string>)
    ensures forall w, s :: !StakeAccepts([], signers, w, s)
  {
    forall w, s | Indexes([], w, s)
      ensures Sum(w.Keys, w) == 0.0
    {
    }
  }
}
