/** The adaptive diagnostic query: TLV batches that go unanswered are split in
    half and tried again. What the node answers is an oracle over the number of
    the query and the mask of requested TLVs. */
module DiagCollect {

  const CHUNK_SIZE := 6
  const PRIME_ATTEMPTS := 4
  const MAC_ADDR: bv64 := 2

  datatype Reply = Answer | Silence | Fatal

  type Batch = seq<bv64>

  /** What a walk came to: the batches that were answered, the TLVs refused
      alone, the batches with nothing to ask for, and the number of queries. */
  datatype Findings = Findings(answered: seq<Batch>, refused: Batch, skipped: seq<Batch>, queries: nat)

  datatype Walk = Unreachable(queries: nat) | Lost(queries: nat) | Done(findings: Findings)

  function Or(a: bv64, b: bv64): bv64 {
    a | b
  }

  function Combined(batch: Batch): bv64 {
    if batch == [] then 0 else Or(Combined(batch[..|batch| - 1]), batch[|batch| - 1])
  }

  function Others(tlvs: Batch): Batch {
    if tlvs == [] then [] else (if tlvs[0] != MAC_ADDR then [tlvs[0]] else []) + Others(tlvs[1..])
  }

  function Chunks(tlvs: Batch): (r: seq<Batch>)
    ensures forall i :: 0 <= i < |r| ==> r[i] != []
    decreases |tlvs|
  {
    if tlvs == [] then []
    else if |tlvs| <= CHUNK_SIZE then [tlvs]
    else [tlvs[..CHUNK_SIZE]] + Chunks(tlvs[CHUNK_SIZE..])
  }

  function Flat(batches: seq<Batch>): Batch {
    if batches == [] then [] else Flat(batches[..|batches| - 1]) + batches[|batches| - 1]
  }

  /** The queries a batch can cost if every part of it is refused. */
  function Cost(batch: Batch): nat {
    if batch == [] then 0 else 2 * |batch| - 1
  }

  function Costs(batches: seq<Batch>): nat {
    if batches == [] then 0 else Costs(batches[..|batches| - 1]) + Cost(batches[|batches| - 1])
  }

  function Reversed(batches: seq<Batch>): seq<Batch> {
    if batches == [] then [] else [batches[|batches| - 1]] + Reversed(batches[..|batches| - 1])
  }

  lemma Pushed(batches: seq<Batch>, b: Batch)
    ensures Flat(batches + [b]) == Flat(batches) + b
    ensures Costs(batches + [b]) == Costs(batches) + Cost(b)
  {
    assert (batches + [b])[..|batches|] == batches;
  }

  lemma {:induction false} Joined(a: seq<Batch>, b: seq<Batch>)
    ensures Flat(a + b) == Flat(a) + Flat(b)
    ensures Costs(a + b) == Costs(a) + Costs(b)
    decreases |b|
  {
    if b == [] {
      assert a + b == a;
    } else {
      var last := b[|b| - 1];
      assert a + b == (a + b[..|b| - 1]) + [last] && b == b[..|b| - 1] + [last];
      Joined(a, b[..|b| - 1]);
      Pushed(a + b[..|b| - 1], last);
      Pushed(b[..|b| - 1], last);
    }
  }

  lemma Single(b: Batch)
    ensures Flat([b]) == b && Costs([b]) == Cost(b)
  {
    Pushed([], b);
    assert [] + [b] == [b];
  }

  lemma {:induction false} ReversedSame(batches: seq<Batch>)
    ensures multiset(Flat(Reversed(batches))) == multiset(Flat(batches))
    ensures Costs(Reversed(batches)) == Costs(batches)
    ensures forall b :: b in Reversed(batches) ==> b in batches
    decreases |batches|
  {
    if batches != [] {
      var rest, last := batches[..|batches| - 1], batches[|batches| - 1];
      ReversedSame(rest);
      Joined([last], Reversed(rest));
      Single(last);
    }
  }

  lemma {:induction false} ChunksFlat(tlvs: Batch)
    ensures Flat(Chunks(tlvs)) == tlvs
    decreases |tlvs|
  {
    if |tlvs| > CHUNK_SIZE {
      ChunksFlat(tlvs[CHUNK_SIZE..]);
      Joined([tlvs[..CHUNK_SIZE]], Chunks(tlvs[CHUNK_SIZE..]));
      Single(tlvs[..CHUNK_SIZE]);
    } else if tlvs != [] {
      Single(tlvs);
    }
  }

  // ---- What was found ----

  // The masks of the queries made, in order, are `asked`: query `k` asked for
  // `asked[k]` and got `oracle(k, asked[k])`.

  ghost predicate Answered(oracle: (nat, bv64) -> Reply, asked: Batch, batch: Batch) {
    exists k: nat :: k < |asked| && asked[k] == Combined(batch) && oracle(k, asked[k]) == Answer
  }

  ghost predicate Refused(oracle: (nat, bv64) -> Reply, asked: Batch, flag: bv64) {
    exists k: nat :: k < |asked| && asked[k] == flag && oracle(k, asked[k]) == Silence
  }

  ghost predicate NoneFatal(oracle: (nat, bv64) -> Reply, asked: Batch) {
    forall k: nat :: k < |asked| ==> oracle(k, asked[k]) != Fatal
  }

  /** Every entry is justified by a query that was made or by having nothing to
      ask for. */
  ghost predicate Justified(oracle: (nat, bv64) -> Reply, asked: Batch, f: Findings) {
    && |asked| == f.queries
    && (forall i :: 0 <= i < |f.answered| ==> Answered(oracle, asked, f.answered[i]))
    && (forall i :: 0 <= i < |f.refused| ==> Refused(oracle, asked, f.refused[i]))
    && (forall i :: 0 <= i < |f.skipped| ==> Combined(f.skipped[i]) == 0)
  }

  ghost function Sorted(f: Findings): multiset<bv64> {
    multiset(Flat(f.answered)) + multiset(f.refused) + multiset(Flat(f.skipped))
  }

  ghost predicate NonEmpty(stack: seq<Batch>) {
    forall i :: 0 <= i < |stack| ==> stack[i] != []
  }

  /** The walk so far: what is left and what was found make up what was asked
      for, within the budget of queries. */
  ghost predicate Walking(
    oracle: (nat, bv64) -> Reply, asked: Batch, wanted: multiset<bv64>, budget: nat, stack: seq<Batch>, f: Findings)
  {
    && NonEmpty(stack) && Justified(oracle, asked, f) && NoneFatal(oracle, asked)
    && Sorted(f) + multiset(Flat(stack)) == wanted
    && f.queries + Costs(stack) <= budget
  }

  /** `prime`: a tiny request, tried a few times. */
  method Prime(oracle: (nat, bv64) -> Reply) returns (r: Reply, queries: nat)
    ensures 1 <= queries <= PRIME_ATTEMPTS && r == oracle(queries - 1, MAC_ADDR)
    ensures forall k: nat :: k < queries - 1 ==> oracle(k, MAC_ADDR) == Silence
    ensures r == Silence ==> queries == PRIME_ATTEMPTS
  {
    queries := 0;
    r := Silence;
    while queries < PRIME_ATTEMPTS
      invariant 0 <= queries <= PRIME_ATTEMPTS
      invariant r == Silence && forall k: nat :: k < queries ==> oracle(k, MAC_ADDR) == Silence
    {
      r := oracle(queries, MAC_ADDR);
      queries := queries + 1;
      if r != Silence {
        return;
      }
    }
  }

  /** The queries that prime a node. */
  function Primes(queries: nat): Batch {
    seq(queries, _ => MAC_ADDR)
  }

  /** The first `primes` queries prime the node: all but the last stay silent. */
  ghost predicate Primed(oracle: (nat, bv64) -> Reply, asked: Batch, primes: nat) {
    && 1 <= primes <= PRIME_ATTEMPTS && primes <= |asked| && asked[..primes] == Primes(primes)
    && forall k: nat :: k < primes - 1 ==> oracle(k, MAC_ADDR) == Silence
  }

  /** A mask made up of requested TLVs. */
  ghost predicate MadeOf(mask: bv64, tlvs: Batch) {
    exists batch :: mask == Combined(batch) && forall i :: 0 <= i < |batch| ==> batch[i] in tlvs
  }

  /** The queries after the primes ask for nothing but requested TLVs. */
  ghost predicate OnlyWanted(asked: Batch, primes: nat, tlvs: Batch) {
    forall k :: primes <= k < |asked| ==> MadeOf(asked[k], tlvs)
  }

  /** What a walk promises. It asks for nothing but the primer and requested
      TLVs, within the budget of its chunks. A finished walk puts every requested
      TLV in one place, each justified by a query. It is unreachable exactly when
      all primes stay silent, and lost on the first fatal reply, its last query. */
  ghost predicate Walked(oracle: (nat, bv64) -> Reply, tlvs: Batch, w: Walk, asked: Batch, primes: nat) {
    && Primed(oracle, asked, primes) && OnlyWanted(asked, primes, Others(tlvs))
    && |asked| <= primes + Costs(Chunks(Others(tlvs)))
    && (w.Unreachable? <==> forall k: nat :: k < PRIME_ATTEMPTS ==> oracle(k, MAC_ADDR) == Silence)
    && match w
       case Unreachable(queries) => queries == PRIME_ATTEMPTS == primes && asked == Primes(PRIME_ATTEMPTS)
       case Lost(queries) =>
         && |asked| == queries && NoneFatal(oracle, asked[..queries - 1])
         && oracle(queries - 1, asked[queries - 1]) == Fatal
       case Done(f) =>
         && oracle(primes - 1, MAC_ADDR) == Answer && NoneFatal(oracle, asked)
         && Sorted(f) == multiset(Others(tlvs)) && Justified(oracle, asked, f)
  }

  /** `collect_diag`; `asked` holds the masks of its queries, the first `primes`
      of which prime the node. */
  method Collect(oracle: (nat, bv64) -> Reply, tlvs: Batch) returns (w: Walk, ghost asked: Batch, ghost primes: nat)
    ensures Walked(oracle, tlvs, w, asked, primes)
    ensures w.Unreachable? <==> forall k: nat :: k < PRIME_ATTEMPTS ==> oracle(k, MAC_ADDR) == Silence
    ensures w.Done? ==> Sorted(w.findings) == multiset(Others(tlvs))
    ensures (if w.Done? then w.findings.queries else w.queries) <= PRIME_ATTEMPTS + Costs(Chunks(Others(tlvs)))
  {
    hide Combined, Flat, Costs, Chunks, Others, Reversed, Walking, Cost, Sorted, Justified, OnlyWanted, Primed;
    var primed, queries := Prime(oracle);
    asked, primes := Primes(queries), queries;
    NoneAsked(oracle, primes, Others(tlvs));
    if primed == Silence {
      return Unreachable(queries), asked, primes;
    }
    if primed == Fatal {
      return Lost(queries), asked, primes;
    }
    var chunks := Chunks(Others(tlvs));
    var stack := Reversed(chunks);
    ghost var wanted := multiset(Others(tlvs));
    ghost var budget := queries + Costs(chunks);
    var f := Findings([], [], [], queries);
    Begins(oracle, asked, tlvs, stack, f);
    while stack != []
      invariant Walking(oracle, asked, wanted, budget, stack, f)
      invariant Primed(oracle, asked, primes) && OnlyWanted(asked, primes, Others(tlvs))
      decreases Costs(stack)
    {
      var batch := stack[|stack| - 1];
      ghost var before := stack;
      stack := stack[..|stack| - 1];
      Pushed(stack, batch);
      assert before == stack + [batch];
      WithinBudget(oracle, asked, wanted, budget, before, batch, f);
      BatchWanted(oracle, asked, budget, before, batch, f, Others(tlvs));
      var mask := Combined(batch);
      if mask == 0 {
        Skips(oracle, asked, wanted, budget, stack, batch, f);
        f := f.(skipped := f.skipped + [batch]);
      } else {
        ghost var earlier := asked;
        asked := asked + [mask];
        OneMoreAsked(oracle, earlier, primes, Others(tlvs), mask);
        match oracle(f.queries, mask) {
          case Fatal =>
            assert asked[..f.queries] == earlier;
            return Lost(f.queries + 1), asked, primes;
          case Answer =>
            Answers(oracle, earlier, wanted, budget, stack, batch, f);
            f := f.(answered := f.answered + [batch], queries := f.queries + 1);
          case Silence =>
            if |batch| > 1 {
              var mid := |batch| / 2;
              Splits(oracle, earlier, wanted, budget, stack, batch, mid, f);
              stack := stack + [batch[..mid]] + [batch[mid..]];
              f := f.(queries := f.queries + 1);
            } else {
              CombinedOne(batch);
              assert batch == [mask];
              Refuses(oracle, earlier, wanted, budget, stack, mask, f);
              f := f.(refused := f.refused + batch, queries := f.queries + 1);
            }
        }
      }
    }
    Ends(oracle, asked, wanted, budget, f);
    w := Done(f);
  }

  // ---- The steps of the walk ----

  lemma Begins(oracle: (nat, bv64) -> Reply, asked: Batch, tlvs: Batch, stack: seq<Batch>, f: Findings)
    requires stack == Reversed(Chunks(Others(tlvs))) && f == Findings([], [], [], |asked|)
    requires NoneFatal(oracle, asked)
    ensures Walking(oracle, asked, multiset(Others(tlvs)), f.queries + Costs(Chunks(Others(tlvs))), stack, f)
  {
    hide Chunks, Others, Reversed, Costs, Combined;
    ChunksFlat(Others(tlvs));
    ReversedSame(Chunks(Others(tlvs)));
    forall i | 0 <= i < |stack| ensures stack[i] != [] {
      assert stack[i] in Chunks(Others(tlvs));
    }
  }

  lemma Ends(oracle: (nat, bv64) -> Reply, asked: Batch, wanted: multiset<bv64>, budget: nat, f: Findings)
    requires Walking(oracle, asked, wanted, budget, [], f)
    ensures Sorted(f) == wanted && Justified(oracle, asked, f) && NoneFatal(oracle, asked)
    ensures |asked| == f.queries <= budget
  {
    hide Answered, Refused, Combined;
  }

  lemma WithinBudget(
    oracle: (nat, bv64) -> Reply, asked: Batch, wanted: multiset<bv64>, budget: nat, stack: seq<Batch>, batch: Batch,
    f: Findings)
    requires Walking(oracle, asked, wanted, budget, stack, f) && stack != [] && batch == stack[|stack| - 1]
    ensures |asked| == f.queries < budget && batch != [] && Cost(batch) > 0 && NoneFatal(oracle, asked)
  {
    hide Answered, Refused, Combined;
    assert Costs(stack) >= Cost(batch) > 0;
  }

  lemma NoneAsked(oracle: (nat, bv64) -> Reply, primes: nat, tlvs: Batch)
    requires 1 <= primes <= PRIME_ATTEMPTS && forall k: nat :: k < primes - 1 ==> oracle(k, MAC_ADDR) == Silence
    ensures Primed(oracle, Primes(primes), primes) && OnlyWanted(Primes(primes), primes, tlvs)
  {
    assert Primes(primes)[..primes] == Primes(primes);
  }

  lemma OneMoreAsked(oracle: (nat, bv64) -> Reply, asked: Batch, primes: nat, tlvs: Batch, mask: bv64)
    requires Primed(oracle, asked, primes) && OnlyWanted(asked, primes, tlvs) && MadeOf(mask, tlvs)
    ensures Primed(oracle, asked + [mask], primes) && OnlyWanted(asked + [mask], primes, tlvs)
  {
    hide MadeOf;
    assert (asked + [mask])[..primes] == asked[..primes];
  }

  /** What is still to be asked for was requested. */
  lemma BatchWanted(
    oracle: (nat, bv64) -> Reply, asked: Batch, budget: nat, stack: seq<Batch>, batch: Batch, f: Findings, tlvs: Batch)
    requires Walking(oracle, asked, multiset(tlvs), budget, stack, f) && stack != [] && batch == stack[|stack| - 1]
    ensures MadeOf(Combined(batch), tlvs)
  {
    hide Combined, Flat, Costs, Justified, Sorted, NoneFatal;
    forall i | 0 <= i < |batch| ensures batch[i] in tlvs {
      FlatMember(stack, batch[i]);
      assert batch[i] in stack[|stack| - 1];
      assert batch[i] in Flat(stack);
      assert batch[i] in Sorted(f) + multiset(Flat(stack));
    }
  }

  /** Justifications outlive a further query. */
  lemma StillJustified(oracle: (nat, bv64) -> Reply, asked: Batch, mask: bv64, f: Findings)
    requires Justified(oracle, asked, f)
    ensures Justified(oracle, asked + [mask], f.(queries := f.queries + 1))
  {
    hide Combined, Answered, Refused;
    forall i | 0 <= i < |f.answered| ensures Answered(oracle, asked + [mask], f.answered[i]) {
      StillAnswered(oracle, asked, mask, f.answered[i]);
    }
    forall i | 0 <= i < |f.refused| ensures Refused(oracle, asked + [mask], f.refused[i]) {
      StillRefused(oracle, asked, mask, f.refused[i]);
    }
  }

  lemma StillAnswered(oracle: (nat, bv64) -> Reply, asked: Batch, mask: bv64, batch: Batch)
    requires Answered(oracle, asked, batch)
    ensures Answered(oracle, asked + [mask], batch)
  {
    hide Combined;
    var k: nat :| k < |asked| && asked[k] == Combined(batch) && oracle(k, asked[k]) == Answer;
    assert (asked + [mask])[k] == asked[k];
  }

  lemma StillRefused(oracle: (nat, bv64) -> Reply, asked: Batch, mask: bv64, flag: bv64)
    requires Refused(oracle, asked, flag)
    ensures Refused(oracle, asked + [mask], flag)
  {
    var k: nat :| k < |asked| && asked[k] == flag && oracle(k, asked[k]) == Silence;
    assert (asked + [mask])[k] == asked[k];
  }

  lemma Skips(
    oracle: (nat, bv64) -> Reply, asked: Batch, wanted: multiset<bv64>, budget: nat, stack: seq<Batch>, batch: Batch,
    f: Findings)
    requires Walking(oracle, asked, wanted, budget, stack + [batch], f) && Combined(batch) == 0
    ensures Walking(oracle, asked, wanted, budget, stack, f.(skipped := f.skipped + [batch])) && Cost(batch) > 0
  {
    hide Combined, Flat, Costs, Answered, Refused;
    Pushed(stack, batch);
    Pushed(f.skipped, batch);
    Shortened(stack, batch);
  }

  lemma Answers(
    oracle: (nat, bv64) -> Reply, asked: Batch, wanted: multiset<bv64>, budget: nat, stack: seq<Batch>, batch: Batch,
    f: Findings)
    requires Walking(oracle, asked, wanted, budget, stack + [batch], f)
    requires oracle(f.queries, Combined(batch)) == Answer
    ensures var g := f.(answered := f.answered + [batch], queries := f.queries + 1);
            Walking(oracle, asked + [Combined(batch)], wanted, budget, stack, g) && Cost(batch) > 0
  {
    hide Combined, Flat, Costs, Answered, Refused;
    Pushed(stack, batch);
    Pushed(f.answered, batch);
    Shortened(stack, batch);
    StillJustified(oracle, asked, Combined(batch), f);
    AnsweredNow(oracle, asked, batch);
  }

  lemma AnsweredNow(oracle: (nat, bv64) -> Reply, asked: Batch, batch: Batch)
    requires oracle(|asked|, Combined(batch)) == Answer
    ensures Answered(oracle, asked + [Combined(batch)], batch)
  {
    hide Combined;
    assert (asked + [Combined(batch)])[|asked|] == Combined(batch);
  }

  lemma Refuses(
    oracle: (nat, bv64) -> Reply, asked: Batch, wanted: multiset<bv64>, budget: nat, stack: seq<Batch>, flag: bv64,
    f: Findings)
    requires Walking(oracle, asked, wanted, budget, stack + [[flag]], f) && oracle(f.queries, flag) == Silence
    ensures var g := f.(refused := f.refused + [flag], queries := f.queries + 1);
            Walking(oracle, asked + [flag], wanted, budget, stack, g)
  {
    hide Flat, Costs, Combined, Justified, NoneFatal, Sorted;
    Pushed(stack, [flag]);
    Shortened(stack, [flag]);
    QueriesAsked(oracle, asked, f);
    NextNotFatal(oracle, asked, flag);
    RefusalJustified(oracle, asked, f, flag);
    SortedRefusal(f, flag);
  }

  lemma NextNotFatal(oracle: (nat, bv64) -> Reply, asked: Batch, mask: bv64)
    requires NoneFatal(oracle, asked) && oracle(|asked|, mask) != Fatal
    ensures NoneFatal(oracle, asked + [mask])
  {
  }

  lemma SortedRefusal(f: Findings, flag: bv64)
    ensures Sorted(f.(refused := f.refused + [flag], queries := f.queries + 1)) == Sorted(f) + multiset([flag])
  {
    hide Flat;
  }

  lemma QueriesAsked(oracle: (nat, bv64) -> Reply, asked: Batch, f: Findings)
    requires Justified(oracle, asked, f)
    ensures |asked| == f.queries
  {
    hide Combined, Answered, Refused;
  }

  lemma RefusalJustified(oracle: (nat, bv64) -> Reply, asked: Batch, f: Findings, flag: bv64)
    requires Justified(oracle, asked, f) && oracle(f.queries, flag) == Silence
    ensures Justified(oracle, asked + [flag], f.(refused := f.refused + [flag], queries := f.queries + 1))
  {
    hide Combined, Refused, Answered;
    StillJustified(oracle, asked, flag, f);
    RefusedNow(oracle, asked, flag);
    var all := f.refused + [flag];
    forall i | 0 <= i < |all| ensures Refused(oracle, asked + [flag], all[i]) {
      if i < |f.refused| {
        assert all[i] == f.refused[i];
      } else {
        assert all[i] == flag;
      }
    }
  }

  lemma RefusedNow(oracle: (nat, bv64) -> Reply, asked: Batch, flag: bv64)
    requires oracle(|asked|, flag) == Silence
    ensures Refused(oracle, asked + [flag], flag)
  {
    assert (asked + [flag])[|asked|] == flag;
  }

  lemma Splits(
    oracle: (nat, bv64) -> Reply, asked: Batch, wanted: multiset<bv64>, budget: nat, stack: seq<Batch>, batch: Batch,
    mid: nat, f: Findings)
    requires Walking(oracle, asked, wanted, budget, stack + [batch], f) && 0 < mid < |batch|
    requires oracle(f.queries, Combined(batch)) == Silence
    ensures var next := stack + [batch[..mid]] + [batch[mid..]];
            && Walking(oracle, asked + [Combined(batch)], wanted, budget, next, f.(queries := f.queries + 1))
            && Costs(next) < Costs(stack + [batch])
  {
    hide Combined, Flat, Costs, Answered, Refused;
    Pushed(stack, batch);
    Pushed(stack, batch[..mid]);
    Pushed(stack + [batch[..mid]], batch[mid..]);
    Shortened(stack, batch);
    StillJustified(oracle, asked, Combined(batch), f);
    assert batch == batch[..mid] + batch[mid..];
  }

  lemma Shortened(stack: seq<Batch>, batch: Batch)
    requires NonEmpty(stack + [batch])
    ensures NonEmpty(stack) && batch != [] && Cost(batch) > 0
  {
    assert forall i :: 0 <= i < |stack| ==> stack[i] == (stack + [batch])[i];
    assert (stack + [batch])[|stack|] == batch;
  }

  lemma CombinedOne(batch: Batch)
    requires |batch| == 1
    ensures Combined(batch) == batch[0]
  {
    hide Or;
    assert batch[..0] == [];
    OrZero(batch[0]);
  }

  lemma OrZero(f: bv64)
    ensures Or(0, f) == f
  {
  }

  // ---- What is obtained ----

  /** The node answers the same way every time, and answers every part of what
      it answers. */
  ghost predicate PartsAnswerable(oracle: (nat, bv64) -> Reply, answers: bv64 -> bool) {
    && (forall k: nat, mask :: oracle(k, mask) == if answers(mask) then Answer else Silence)
    && forall a: bv64, b: bv64 :: answers(a) && b != 0 && Or(a, b) == a ==> answers(b)
  }

  lemma Absorbs(a: bv64, g: bv64, f: bv64)
    requires Or(a, f) == a
    ensures Or(Or(a, g), f) == Or(a, g)
  {
  }

  lemma {:induction false} InCombined(batch: Batch, i: nat)
    requires i < |batch|
    ensures Or(Combined(batch), batch[i]) == Combined(batch)
    decreases |batch|
  {
    hide Or;
    var rest, last := batch[..|batch| - 1], batch[|batch| - 1];
    if i < |batch| - 1 {
      InCombined(rest, i);
      Absorbs(Combined(rest), last, batch[i]);
    } else {
      SelfAbsorbs(Combined(rest), last);
    }
  }

  lemma SelfAbsorbs(a: bv64, f: bv64)
    ensures Or(Or(a, f), f) == Or(a, f)
  {
  }

  lemma {:induction false} FlatMember(batches: seq<Batch>, flag: bv64)
    ensures flag in Flat(batches) <==> exists i :: 0 <= i < |batches| && flag in batches[i]
    decreases |batches|
  {
    if batches != [] {
      var rest := batches[..|batches| - 1];
      FlatMember(rest, flag);
      assert forall i :: 0 <= i < |rest| ==> rest[i] == batches[i];
    }
  }

  /** With a node that answers every part of what it answers, the TLVs obtained
      are exactly the requested ones it answers alone. */
  lemma ObtainsWhatIsAnswerable(
    oracle: (nat, bv64) -> Reply, answers: bv64 -> bool, tlvs: Batch, asked: Batch, f: Findings, flag: bv64)
    requires PartsAnswerable(oracle, answers) && Justified(oracle, asked, f) && Sorted(f) == multiset(Others(tlvs))
    requires flag in Others(tlvs) && flag != 0
    ensures flag in Flat(f.answered) <==> answers(flag)
  {
    hide Combined, Flat, Others, Or;
    FlatMember(f.answered, flag);
    if flag in Flat(f.answered) {
      var i :| 0 <= i < |f.answered| && flag in f.answered[i];
      var j :| 0 <= j < |f.answered[i]| && f.answered[i][j] == flag;
      InCombined(f.answered[i], j);
      assert Answered(oracle, asked, f.answered[i]);
    } else {
      assert flag in multiset(Others(tlvs));
      if flag in f.refused {
        var i :| 0 <= i < |f.refused| && f.refused[i] == flag;
        assert Refused(oracle, asked, f.refused[i]);
      } else {
        assert flag in Sorted(f);
        NotSkipped(f, flag);
      }
    }
  }

  /** Only zeros have nothing to ask for. */
  lemma NotSkipped(f: Findings, flag: bv64)
    requires flag != 0 && forall i :: 0 <= i < |f.skipped| ==> Combined(f.skipped[i]) == 0
    ensures flag !in Flat(f.skipped)
  {
    hide Combined, Flat, Or;
    FlatMember(f.skipped, flag);
    if flag in Flat(f.skipped) {
      var i :| 0 <= i < |f.skipped| && flag in f.skipped[i];
      var j :| 0 <= j < |f.skipped[i]| && f.skipped[i][j] == flag;
      InCombined(f.skipped[i], j);
      ZeroHasNothing(flag);
    }
  }

  lemma ZeroHasNothing(f: bv64)
    ensures Or(0, f) == 0 ==> f == 0
  {
  }

  // ---- What is asked for ----

  predicate Asks(mask: bv64, flag: bv64) {
    flag != 0 && Or(mask, flag) == mask
  }

  /** Some query after the primes asks for the TLV. */
  ghost predicate AskedFor(asked: Batch, primes: nat, flag: bv64) {
    exists k :: primes <= k < |asked| && Asks(asked[k], flag)
  }

  /** One TLV is one bit. */
  predicate SingleBit(flag: bv64) {
    flag != 0 && flag & (flag - 1) == 0
  }

  predicate SingleBits(tlvs: Batch) {
    forall i :: 0 <= i < |tlvs| ==> SingleBit(tlvs[i])
  }

  lemma BitOfEither(a: bv64, b: bv64, flag: bv64)
    requires SingleBit(flag) && Asks(Or(a, b), flag)
    ensures Asks(a, flag) || Asks(b, flag)
  {
  }

  lemma BitOfBit(a: bv64, flag: bv64)
    requires SingleBit(a) && Asks(a, flag)
    ensures a == flag
  {
  }

  lemma {:induction false} BitOfCombined(batch: Batch, flag: bv64)
    requires SingleBit(flag) && Asks(Combined(batch), flag)
    ensures exists i :: 0 <= i < |batch| && Asks(batch[i], flag)
    decreases |batch|
  {
    hide Or, SingleBit;
    if batch == [] {
      ZeroHasNothing(flag);
    } else {
      var rest, last := batch[..|batch| - 1], batch[|batch| - 1];
      BitOfEither(Combined(rest), last, flag);
      if Asks(Combined(rest), flag) {
        BitOfCombined(rest, flag);
      }
    }
  }

  lemma {:induction false} OthersMember(tlvs: Batch, flag: bv64)
    ensures flag in Others(tlvs) <==> flag in tlvs && flag != MAC_ADDR
    decreases |tlvs|
  {
    if tlvs != [] {
      OthersMember(tlvs[1..], flag);
      assert tlvs == [tlvs[0]] + tlvs[1..];
    }
  }

  /** The query that answered or refused a batch asked for its TLVs. */
  lemma QueryAsks(asked: Batch, primes: nat, k: nat, batch: Batch, flag: bv64)
    requires k < |asked| && asked[k] == Combined(batch) && flag in batch && flag != 0 && flag != MAC_ADDR
    requires primes <= |asked| && asked[..primes] == Primes(primes)
    ensures AskedFor(asked, primes, flag)
  {
    hide Combined, Or;
    var i :| 0 <= i < |batch| && batch[i] == flag;
    InCombined(batch, i);
    if k < primes {
      assert asked[k] == asked[..primes][k] == MAC_ADDR;
      PrimeIsBit();
      BitOfBit(MAC_ADDR, flag);
    }
  }

  lemma PrimeIsBit()
    ensures SingleBit(MAC_ADDR)
  {
  }

  /** A finished walk asked for every requested TLV. */
  lemma WantedIsAsked(
    oracle: (nat, bv64) -> Reply, tlvs: Batch, asked: Batch, primes: nat, f: Findings, flag: bv64)
    requires Walked(oracle, tlvs, Done(f), asked, primes) && flag in Others(tlvs) && flag != 0
    ensures AskedFor(asked, primes, flag)
  {
    hide Combined, Flat, Others, Or, AskedFor;
    OthersMember(tlvs, flag);
    FlatMember(f.answered, flag);
    assert flag in Sorted(f);
    if flag in Flat(f.answered) {
      var i :| 0 <= i < |f.answered| && flag in f.answered[i];
      assert Answered(oracle, asked, f.answered[i]);
      var k: nat :| k < |asked| && asked[k] == Combined(f.answered[i]) && oracle(k, asked[k]) == Answer;
      QueryAsks(asked, primes, k, f.answered[i], flag);
    } else if flag in f.refused {
      var i :| 0 <= i < |f.refused| && f.refused[i] == flag;
      assert Refused(oracle, asked, f.refused[i]);
      var k: nat :| k < |asked| && asked[k] == flag && oracle(k, asked[k]) == Silence;
      CombinedOne([flag]);
      QueryAsks(asked, primes, k, [flag], flag);
    } else {
      NotSkipped(f, flag);
    }
  }

  /** No walk, however it ends, asks for a TLV that was not requested. */
  lemma AskedIsWanted(asked: Batch, primes: nat, tlvs: Batch, flag: bv64)
    requires OnlyWanted(asked, primes, Others(tlvs)) && AskedFor(asked, primes, flag)
    requires SingleBits(tlvs) && SingleBit(flag)
    ensures flag in Others(tlvs)
  {
    hide Combined, Others, Or, SingleBit, Asks;
    var k :| primes <= k < |asked| && Asks(asked[k], flag);
    assert MadeOf(asked[k], Others(tlvs));
    var batch :| asked[k] == Combined(batch) && forall i :: 0 <= i < |batch| ==> batch[i] in Others(tlvs);
    BitOfCombined(batch, flag);
    var i :| 0 <= i < |batch| && Asks(batch[i], flag);
    OthersMember(tlvs, batch[i]);
    BitOfBit(batch[i], flag);
  }

  /** A walk that finishes asks for a TLV exactly when it was requested. No
      earlier walk has a say in it: a TLV that a node refused alone is skipped on
      a later node exactly when it is not requested of that node. */
  lemma AskedExactly(
    oracle: (nat, bv64) -> Reply, tlvs: Batch, asked: Batch, primes: nat, f: Findings, flag: bv64)
    requires Walked(oracle, tlvs, Done(f), asked, primes) && SingleBits(tlvs) && SingleBit(flag)
    ensures AskedFor(asked, primes, flag) <==> flag in Others(tlvs)
  {
    hide Primed, OnlyWanted, Justified, Sorted, SingleBits, AskedFor;
    if flag in Others(tlvs) {
      WantedIsAsked(oracle, tlvs, asked, primes, f, flag);
    } else if AskedFor(asked, primes, flag) {
      AskedIsWanted(asked, primes, tlvs, flag);
    }
  }

  /** A node: what it replies and the TLVs requested of it. */
  datatype Node = Node(oracle: (nat, bv64) -> Reply, tlvs: Batch)

  /** The walk over the nodes of a network, until a fatal reply ends it. Every
      node that can be reached is asked for exactly the TLVs requested of it,
      whatever the nodes before it refused. */
  method CollectAll(nodes: seq<Node>) returns (walks: seq<Walk>, ghost asked: seq<Batch>, ghost primes: seq<nat>)
    ensures |walks| == |asked| == |primes| <= |nodes|
    ensures |walks| < |nodes| ==> walks != [] && walks[|walks| - 1].Lost?
    ensures forall n :: 0 <= n < |walks| - 1 ==> !walks[n].Lost?
    ensures forall n :: 0 <= n < |walks| ==> Walked(nodes[n].oracle, nodes[n].tlvs, walks[n], asked[n], primes[n])
    ensures forall n, flag :: 0 <= n < |walks| && walks[n].Done? && SingleBits(nodes[n].tlvs) && SingleBit(flag) ==>
              (AskedFor(asked[n], primes[n], flag) <==> flag in Others(nodes[n].tlvs))
  {
    hide Others, AskedFor, Walked, SingleBits, SingleBit;
    walks, asked, primes := [], [], [];
    for i := 0 to |nodes|
      invariant |walks| == |asked| == |primes| == i
      invariant forall n :: 0 <= n < i ==> !walks[n].Lost?
      invariant forall n :: 0 <= n < i ==> Walked(nodes[n].oracle, nodes[n].tlvs, walks[n], asked[n], primes[n])
    {
      var w;
      ghost var a, p;
      w, a, p := Collect(nodes[i].oracle, nodes[i].tlvs);
      walks, asked, primes := walks + [w], asked + [a], primes + [p];
      if w.Lost? {
        break;
      }
    }
    forall n, flag | 0 <= n < |walks| && walks[n].Done? && SingleBits(nodes[n].tlvs) && SingleBit(flag)
      ensures AskedFor(asked[n], primes[n], flag) <==> flag in Others(nodes[n].tlvs)
    {
      AskedExactly(nodes[n].oracle, nodes[n].tlvs, asked[n], primes[n], walks[n].findings, flag);
    }
  }

  // ---- A refused TLV is asked for again ----

  /** Answers nothing but the primer. */
  function Reticent(k: nat, mask: bv64): Reply {
    if mask == MAC_ADDR then Answer else Silence
  }

  function Talkative(k: nat, mask: bv64): Reply {
    Answer
  }

  lemma ReticentParts()
    ensures PartsAnswerable(Reticent, mask => mask == MAC_ADDR)
  {
  }

  /** A walk of a reticent node refuses what is requested. */
  lemma ReticentRefuses(w: Walk, asked: Batch, primes: nat)
    requires Walked(Reticent, [4], w, asked, primes)
    ensures w.Done? && 4 in w.findings.refused
  {
    hide Combined, Flat, Or, Chunks, Costs, OnlyWanted, Primed, PartsAnswerable;
    assert Reticent(0, MAC_ADDR) == Answer;
    OthersMember([4], 4);
    ReticentParts();
    var f := w.findings;
    ObtainsWhatIsAnswerable(Reticent, mask => mask == MAC_ADDR, [4], asked, f, 4);
    NotSkipped(f, 4);
    assert 4 in Sorted(f);
  }

  /** Two nodes of which TLV 4 is requested. The first refuses it alone, and the
      second is asked for it all the same. */
  method RefusedIsAskedAgain() returns (walks: seq<Walk>, ghost asked: seq<Batch>, ghost primes: seq<nat>)
    ensures |walks| == |asked| == |primes| == 2 && walks[0].Done? && walks[1].Done?
    ensures 4 in walks[0].findings.refused && AskedFor(asked[1], primes[1], 4)
  {
    hide Walked, AskedFor, Others;
    var nodes := [Node(Reticent, [4]), Node(Talkative, [4])];
    walks, asked, primes := CollectAll(nodes);
    ReticentRefuses(walks[0], asked[0], primes[0]);
    TalkativeFinishes(walks[1], asked[1], primes[1]);
    OthersMember([4], 4);
    assert SingleBit(4) && SingleBits(nodes[1].tlvs);
  }

  lemma TalkativeFinishes(w: Walk, asked: Batch, primes: nat)
    requires Walked(Talkative, [4], w, asked, primes)
    ensures w.Done?
  {
    hide Combined, Flat, Chunks, Costs, OnlyWanted, Justified, Sorted, Others;
    assert Talkative(0, MAC_ADDR) == Answer;
  }

  /** The budget for a list of chunks of six: twice its length less one per
      chunk. */
  lemma {:induction false} ChunkCosts(tlvs: Batch)
    ensures Costs(Chunks(tlvs)) == 2 * |tlvs| - (|tlvs| + CHUNK_SIZE - 1) / CHUNK_SIZE
    decreases |tlvs|
  {
    if |tlvs| > CHUNK_SIZE {
      ChunkCosts(tlvs[CHUNK_SIZE..]);
      Joined([tlvs[..CHUNK_SIZE]], Chunks(tlvs[CHUNK_SIZE..]));
      Single(tlvs[..CHUNK_SIZE]);
    } else if tlvs != [] {
      Single(tlvs);
    }
  }
}
