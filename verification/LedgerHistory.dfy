/** What a history of committed ledger operations amounts to: which entries are
    in the list, how often, and when the order of the operations does not matter. */
module LedgerHistory {
  import opened Basics
  import opened Tokens
  import opened Protocol
  import I = Interleaving
  import L = LedgerThreads

  /** The list after a history; every write goes through the encoder once. */
  function Replay(es: seq<Metadata>, ops: seq<Op>): seq<Metadata> {
    if ops == [] then es else NormaliseAll(Apply(ops[|ops| - 1], Replay(es, ops[..|ops| - 1])))
  }

  function OpsOf(log: seq<L.Commit>): (ops: seq<Op>)
    ensures |ops| == |log| && forall k | 0 <= k < |log| :: ops[k] == log[k].op
  {
    seq(|log|, k requires 0 <= k < |log| => log[k].op)
  }

  lemma {:induction false} FoldedReplays(f: L.File, log: seq<L.Commit>)
    requires EntriesOf(f.codec, f.initial).Some?
    ensures L.Folded(f, log) == Some(Replay(EntriesOf(f.codec, f.initial).value, OpsOf(log)))
  {
    if log != [] {
      FoldedReplays(f, log[..|log| - 1]);
      assert OpsOf(log)[..|log| - 1] == OpsOf(log[..|log| - 1]);
    }
  }

  function Count(es: seq<Metadata>, n: Metadata): nat {
    multiset(NormaliseAll(es))[n]
  }

  lemma CountSplits(es: seq<Metadata>, more: seq<Metadata>, n: Metadata)
    ensures Count(es + more, n) == Count(es, n) + Count(more, n)
  {
    assert NormaliseAll(es + more) == NormaliseAll(es) + NormaliseAll(more);
  }

  lemma CountOne(m: Metadata, n: Metadata)
    ensures Count([m], n) == if Normalise(m) == n then 1 else 0
  {
    assert NormaliseAll([m]) == [Normalise(m)];
  }

  lemma CountAgain(es: seq<Metadata>, n: Metadata)
    ensures Count(NormaliseAll(es), n) == Count(es, n)
  {
    assert NormaliseAll(NormaliseAll(es)) == NormaliseAll(es);
  }

  /** Nothing a cleanup looks at is normalised either. */
  lemma StaleNormalised(m: Metadata, now: Instant, cutoff: Instant)
    ensures Stale(Normalise(m), now, cutoff) == Stale(m, now, cutoff)
  {
  }

  /** A cleanup that never finds `n` stale keeps every copy of it. */
  lemma {:induction false} KeptCounts(es: seq<Metadata>, nows: seq<Instant>, cutoff: Instant, n: Metadata)
    requires |nows| == |es|
    requires forall k | 0 <= k < |nows| :: !Stale(n, nows[k], cutoff)
    ensures Count(Kept(es, nows, cutoff), n) == Count(es, n)
  {
    if es != [] {
      var k := |es| - 1;
      KeptCounts(es[..k], nows[..k], cutoff, n);
      assert es == es[..k] + [es[k]];
      CountSplits(es[..k], [es[k]], n);
      CountOne(es[k], n);
      CountSplits(Kept(es[..k], nows[..k], cutoff), [es[k]], n);
      StaleNormalised(es[k], nows[k], cutoff);
    }
  }

  /** The operation could take `n` away. */
  predicate Hits(op: Op, n: Metadata) {
    match op
    case Record(_) => false
    case Remove(provider, key) => Matches(n, provider, key)
    case Cleanup(cutoff, nows) => exists k | 0 <= k < |nows| :: Stale(n, nows[k], cutoff)
  }

  predicate Adds(op: Op, n: Metadata) {
    op.Record? && Normalise(op.entry) == n
  }

  /** One operation's effect on the number of copies of an entry. */
  lemma ApplyCounts(op: Op, es: seq<Metadata>, n: Metadata)
    ensures !Hits(op, n) ==> Count(Apply(op, es), n) == Count(es, n) + if Adds(op, n) then 1 else 0
    ensures op.Remove? && Hits(op, n) ==> Count(Apply(op, es), n) == 0
  {
    match op
    case Record(m) =>
      CountSplits(es, [m], n);
      CountOne(m, n);
    case Remove(provider, key) =>
      WithoutNormalises(es, provider, key);
      WithoutCounts(NormaliseAll(es), provider, key, n);
    case Cleanup(cutoff, nows) =>
      if !Hits(op, n) && |nows| == |es| {
        KeptCounts(es, nows, cutoff, n);
      }
  }

  lemma ReplayCounts(es: seq<Metadata>, ops: seq<Op>, n: Metadata)
    requires ops != [] && !Hits(ops[|ops| - 1], n)
    ensures Count(Replay(es, ops), n)
      == Count(Replay(es, ops[..|ops| - 1]), n) + if Adds(ops[|ops| - 1], n) then 1 else 0
  {
    var before := Replay(es, ops[..|ops| - 1]);
    ApplyCounts(ops[|ops| - 1], before, n);
    CountAgain(Apply(ops[|ops| - 1], before), n);
  }

  /** A recorded entry is in the list exactly once more than before, until a
      later removal or cleanup takes it or the same entry is recorded again. */
  lemma {:induction false} RecordStays(es: seq<Metadata>, before: seq<Op>, m: Metadata, after: seq<Op>)
    requires forall k | 0 <= k < |after| :: !Hits(after[k], Normalise(m)) && !Adds(after[k], Normalise(m))
    ensures Count(Replay(es, before + [Record(m)] + after), Normalise(m)) == Count(Replay(es, before), Normalise(m)) + 1
  {
    var ops := before + [Record(m)] + after;
    if after == [] {
      assert ops[..|ops| - 1] == before;
    } else {
      RecordStays(es, before, m, after[..|after| - 1]);
      assert ops[..|ops| - 1] == before + [Record(m)] + after[..|after| - 1];
    }
    ReplayCounts(es, ops, Normalise(m));
  }

  // ---- Rotations commute ---------------------------------------------------------------

  /** The ledger's part of one successful rotation. */
  datatype Swap = Swap(provider: string, oldId: string, entry: Metadata)

  function Plan(rs: seq<Swap>): seq<Op> {
    if rs == [] then []
    else
      var r := rs[|rs| - 1];
      Plan(rs[..|rs| - 1]) + [Record(r.entry), Remove(r.provider, ById(r.oldId))]
  }

  /** No new ID is an old ID under the same provider, its own included. */
  predicate Distinct(rs: seq<Swap>) {
    forall j, k | 0 <= j < |rs| && 0 <= k < |rs| :: !Matches(rs[j].entry, rs[k].provider, ById(rs[k].oldId))
  }

  function Entries(rs: seq<Swap>): (es: seq<Metadata>)
    ensures |es| == |rs| && forall k | 0 <= k < |rs| :: es[k] == rs[k].entry
  {
    seq(|rs|, k requires 0 <= k < |rs| => rs[k].entry)
  }

  predicate Superseded(rs: seq<Swap>, n: Metadata) {
    exists k | 0 <= k < |rs| :: Matches(n, rs[k].provider, ById(rs[k].oldId))
  }

  /** How many operations add an entry; how they are ordered is immaterial. */
  function Additions(ops: seq<Op>, n: Metadata): nat {
    if ops == [] then 0 else Additions(ops[..|ops| - 1], n) + if Adds(ops[|ops| - 1], n) then 1 else 0
  }

  lemma {:induction false} AdditionsSplit(ops: seq<Op>, more: seq<Op>, n: Metadata)
    ensures Additions(ops + more, n) == Additions(ops, n) + Additions(more, n)
  {
    if more == [] {
      assert ops + more == ops;
    } else {
      AdditionsSplit(ops, more[..|more| - 1], n);
      assert (ops + more)[..|ops + more| - 1] == ops + more[..|more| - 1];
    }
  }

  lemma TakenOut(b: seq<Op>, i: nat)
    requires i < |b|
    ensures multiset(b[..i] + b[i + 1..]) == multiset(b) - multiset{b[i]}
  {
    assert b == b[..i] + [b[i]] + b[i + 1..];
  }

  lemma {:induction false} AdditionsPermute(a: seq<Op>, b: seq<Op>, n: Metadata)
    requires multiset(a) == multiset(b)
    ensures Additions(a, n) == Additions(b, n)
  {
    assert |a| == |multiset(a)| == |multiset(b)| == |b|;
    if a == [] {
      return;
    }
    var k := |a| - 1;
    assert a[k] in multiset(b);
    var i :| 0 <= i < |b| && b[i] == a[k];
    TakenOut(a, k);
    TakenOut(b, i);
    assert a[..k] + a[k + 1..] == a[..k];
    AdditionsWithout(b, i, n);
    AdditionsPermute(a[..k], b[..i] + b[i + 1..], n);
  }

  lemma AdditionsWithout(b: seq<Op>, i: nat, n: Metadata)
    requires i < |b|
    ensures Additions(b, n) == Additions(b[..i] + b[i + 1..], n) + if Adds(b[i], n) then 1 else 0
  {
    assert b == b[..i + 1] + b[i + 1..] && b[..i + 1][..i] == b[..i];
    AdditionsSplit(b[..i + 1], b[i + 1..], n);
    AdditionsSplit(b[..i], b[i + 1..], n);
  }

  lemma AdditionsOfPair(r: Swap, n: Metadata)
    ensures Additions([Record(r.entry), Remove(r.provider, ById(r.oldId))], n)
      == if Adds(Record(r.entry), n) then 1 else 0
  {
    var pair := [Record(r.entry), Remove(r.provider, ById(r.oldId))];
    assert pair[..1] == [Record(r.entry)] && [Record(r.entry)][..0] == [];
    assert Additions(pair[..1], n) == if Adds(Record(r.entry), n) then 1 else 0;
  }

  lemma {:induction false} PlanAdds(rs: seq<Swap>, n: Metadata)
    ensures Additions(Plan(rs), n) == Count(Entries(rs), n)
  {
    if rs != [] {
      var r := rs[|rs| - 1];
      var pair := [Record(r.entry), Remove(r.provider, ById(r.oldId))];
      PlanAdds(rs[..|rs| - 1], n);
      AdditionsSplit(Plan(rs[..|rs| - 1]), pair, n);
      AdditionsOfPair(r, n);
      assert Entries(rs) == Entries(rs[..|rs| - 1]) + [r.entry];
      CountSplits(Entries(rs[..|rs| - 1]), [r.entry], n);
      CountOne(r.entry, n);
    }
  }

  /** Plan holds each rotation's two operations, and nothing else. */
  lemma {:induction false} PlanHolds(rs: seq<Swap>, op: Op)
    ensures op in Plan(rs)
      <==> exists k | 0 <= k < |rs| :: op == Record(rs[k].entry) || op == Remove(rs[k].provider, ById(rs[k].oldId))
  {
    if rs != [] {
      PlanHolds(rs[..|rs| - 1], op);
      var front := rs[..|rs| - 1];
      assert forall k | 0 <= k < |front| :: front[k] == rs[k];
    }
  }

  predicate Hit(ops: seq<Op>, n: Metadata) {
    exists k | 0 <= k < |ops| :: Hits(ops[k], n)
  }

  lemma HitGrows(ops: seq<Op>, n: Metadata)
    requires ops != []
    ensures Hit(ops, n) <==> Hit(ops[..|ops| - 1], n) || Hits(ops[|ops| - 1], n)
  {
    if Hit(ops, n) && !Hits(ops[|ops| - 1], n) {
      var k :| 0 <= k < |ops| && Hits(ops[k], n);
      assert Hits(ops[..|ops| - 1][k], n);
    }
  }

  /** In any order of operations none of which removes what another records. */
  lemma {:induction false} ReplayTotals(es: seq<Metadata>, ops: seq<Op>, n: Metadata)
    requires forall k | 0 <= k < |ops| :: ops[k].Record? || ops[k].Remove?
    requires forall j, k | 0 <= j < |ops| && 0 <= k < |ops| :: !(Adds(ops[j], n) && Hits(ops[k], n))
    ensures Count(Replay(es, ops), n) == (if Hit(ops, n) then 0 else Count(es, n)) + Additions(ops, n)
  {
    if ops != [] {
      var front := ops[..|ops| - 1];
      var last := ops[|ops| - 1];
      ReplayTotals(es, front, n);
      HitGrows(ops, n);
      ApplyCounts(last, Replay(es, front), n);
      CountAgain(Apply(last, Replay(es, front)), n);
      if Hits(last, n) {
        NoAdditions(ops, n);
      }
    }
  }

  lemma {:induction false} NoAdditions(ops: seq<Op>, n: Metadata)
    requires forall k | 0 <= k < |ops| :: !Adds(ops[k], n)
    ensures Additions(ops, n) == 0
  {
    if ops != [] {
      NoAdditions(ops[..|ops| - 1], n);
    }
  }

  /** Rotations commit in any interleaving to the same multiset: the initial
      entries without every replaced (provider, old ID) pair, plus one entry per
      replacement.  Other names and other providers' equal IDs are untouched. */
  lemma RotationsConverge(es: seq<Metadata>, rs: seq<Swap>, ops: seq<Op>, n: Metadata)
    requires Distinct(rs) && multiset(ops) == multiset(Plan(rs))
    ensures Count(Replay(es, ops), n) == (if Superseded(rs, n) then 0 else Count(es, n)) + Count(Entries(rs), n)
  {
    forall op ensures op in ops <==> op in Plan(rs) {
      assert op in ops <==> op in multiset(ops);
      assert op in Plan(rs) <==> op in multiset(Plan(rs));
    }
    forall k | 0 <= k < |ops|
      ensures ops[k].Record? || ops[k].Remove?
      ensures ops[k].Record? ==> exists i | 0 <= i < |rs| :: rs[i].entry == ops[k].entry
      ensures Hits(ops[k], n) ==> Superseded(rs, n)
    {
      assert ops[k] in ops;
      PlanHolds(rs, ops[k]);
    }
    if Superseded(rs, n) {
      var k :| 0 <= k < |rs| && Matches(n, rs[k].provider, ById(rs[k].oldId));
      var gone := Remove(rs[k].provider, ById(rs[k].oldId));
      PlanHolds(rs, gone);
      assert gone in ops && Hits(gone, n);
    }
    ReplayTotals(es, ops, n);
    AdditionsPermute(ops, Plan(rs), n);
    PlanAdds(rs, n);
  }

  // ---- On every run --------------------------------------------------------------------

  /** Concurrent rotations on one ledger, their system calls interleaved in any
      way: once all have committed, and nothing else has, the file decodes to the
      initial entries without the replaced ones plus one per replacement. */
  lemma ConcurrentRotations(f: L.File, s: L.Sys, ms: seq<L.Move>, es: seq<Metadata>, rs: seq<Swap>)
    requires Lawful(f.codec) && !IsStaging(f.at.base) && I.Inv(s.w) && L.Starts(f, s) && L.Ran(f, s, ms).Some?
    requires EntriesOf(f.codec, f.initial) == Some(es) && Distinct(rs)
    requires multiset(OpsOf(L.Ran(f, s, ms).value.log)) == multiset(Plan(rs))
    ensures var now := EntriesOf(f.codec, FileAt(L.Ran(f, s, ms).value.w.fs, f.at));
      now.Some? && forall n ::
        Count(now.value, n) == (if Superseded(rs, n) then 0 else Count(es, n)) + Count(Entries(rs), n)
  {
    var v := L.Ran(f, s, ms).value;
    L.LedgerLinearizable(f, s, ms);
    FoldedReplays(f, v.log);
    forall n ensures Count(Replay(es, OpsOf(v.log)), n)
      == (if Superseded(rs, n) then 0 else Count(es, n)) + Count(Entries(rs), n) {
      RotationsConverge(es, rs, OpsOf(v.log), n);
    }
  }

  lemma OpsSplit(before: seq<L.Commit>, c: L.Commit, after: seq<L.Commit>)
    ensures OpsOf(before + [c] + after) == OpsOf(before) + [c.op] + OpsOf(after)
  {
  }

  /** On every run, a committed Record adds one copy of its entry, and the copy
      is in the file as long as no later commit takes it or adds it again. */
  lemma RecordedOnce(f: L.File, s: L.Sys, ms: seq<L.Move>, es: seq<Metadata>, before: seq<L.Commit>, c: L.Commit,
                     after: seq<L.Commit>)
    requires Lawful(f.codec) && !IsStaging(f.at.base) && I.Inv(s.w) && L.Starts(f, s) && L.Ran(f, s, ms).Some?
    requires EntriesOf(f.codec, f.initial) == Some(es) && L.Ran(f, s, ms).value.log == before + [c] + after
    requires c.op.Record?
    requires forall k | 0 <= k < |after| ::
      !Hits(after[k].op, Normalise(c.op.entry)) && !Adds(after[k].op, Normalise(c.op.entry))
    ensures var now := EntriesOf(f.codec, FileAt(L.Ran(f, s, ms).value.w.fs, f.at));
      now.Some?
        && Count(now.value, Normalise(c.op.entry)) == Count(Replay(es, OpsOf(before)), Normalise(c.op.entry)) + 1
  {
    var log := before + [c] + after;
    L.LedgerLinearizable(f, s, ms);
    FoldedReplays(f, log);
    OpsSplit(before, c, after);
    RecordStays(es, OpsOf(before), c.op.entry, OpsOf(after));
  }
}
