/**
 What the thread pool has Google do: when no message is imported twice, and no label created twice,
 in any interleaving of workers that may share users, tables and cache.
 */
module BulkHistory {
  import opened Prelude
  import opened Checkpoint
  import opened Labels
  import opened BulkImport
  import BulkImporter

  predicate Has(t: Task, k: ItemKey) {
    exists i | 0 <= i < |t.mails| :: ItemOf(t, t.mails[i]) == k
  }

  /** A message that two tasks have in common is in the checkpoint already. */
  ghost predicate NoSharedNew(tasks: seq<Task>, s: Shared) {
    forall w, v, k | 0 <= w < v < |tasks| && Has(tasks[w], k) && Has(tasks[v], k) :: Synced(s.items, k)
  }

  function Item(t: Task, l: Local): ItemKey
    requires !Done(t, l)
  {
    ItemOf(t, t.mails[l.i])
  }

  /** The worker has found its entry not to be in the checkpoint. */
  predicate Claims(t: Task, l: Local) { !Done(t, l) && !l.pc.Check? }

  /** Gmail has accepted the worker's entry, and the row is still to be written. */
  predicate Flying(t: Task, l: Local) { !Done(t, l) && l.pc.RecordOk? }

  ghost predicate InFlight(tasks: seq<Task>, p: Pool, k: ItemKey)
    requires |p.locals| == |tasks|
  {
    exists w | 0 <= w < |tasks| && Flying(tasks[w], p.locals[w]) :: Item(tasks[w], p.locals[w]) == k
  }

  /** Copies accepted since `s`, losses aside. */
  function Gain(s: Shared, s': Shared, k: ItemKey): int {
    s'.accepted[k] as int - s'.lost[k] as int - (s.accepted[k] as int - s.lost[k] as int)
  }

  // ---------------------------------------------------------------- what every step keeps

  ghost predicate PoolInv(tasks: seq<Task>, s: Shared, p: Pool)
    requires |p.locals| == |tasks|
  {
    && (forall k | Synced(s.items, k) :: Synced(p.shared.items, k))
    && (forall w | 0 <= w < |tasks| && Claims(tasks[w], p.locals[w]) ::
          !Synced(p.shared.items, Item(tasks[w], p.locals[w])))
    && (forall k :: Gain(s, p.shared, k) ==
                    Bit(Synced(p.shared.items, k)) - Bit(Synced(s.items, k)) + Bit(InFlight(tasks, p, k)))
  }

  /** What one step of a live worker means for the message it is at. */
  lemma ActItems(cfg: Config, t: Task, s: Shared, l: Local)
    requires !cfg.dryRun && !Done(t, l)
    ensures var (e, l') := Act(cfg, t, s, l);
      && (Claims(t, l') ==> l'.i == l.i && (Claims(t, l) || !Synced(s.items, Item(t, l))))
      && match e
         case PutItem(k, row) =>
           k == Item(t, l) && !Claims(t, l') && !l.pc.Check? && (row.status == SYNCED <==> l.pc.RecordOk?)
         case Accept(k, _) => k == Item(t, l) && !l.pc.Check? && !l.pc.RecordOk? && Flying(t, l')
         case Lose(k) => k == Item(t, l) && l.pc.RecordOk? && !l'.pc.RecordOk?
         case _ => !l.pc.RecordOk? && !l'.pc.RecordOk?
  {
  }

  /** How a step's effect moves the accounts of a message. */
  lemma EffectGain(s: Shared, e: Effect, k: ItemKey)
    ensures var s' := Update(s, e);
      && Gain(s, s', k) == Bit(e.Accept? && e.item == k) - Bit(e == Lose(k))
      && Synced(s'.items, k) == (if e.PutItem? && e.item == k then e.row.status == SYNCED else Synced(s.items, k))
  {
  }

  lemma ClaimsApart(tasks: seq<Task>, s: Shared, p: Pool, w: nat, v: nat)
    requires |p.locals| == |tasks| && NoSharedNew(tasks, s) && PoolInv(tasks, s, p)
    requires w < |tasks| && v < |tasks| && v != w && !Done(tasks[w], p.locals[w]) && Claims(tasks[v], p.locals[v])
    ensures Item(tasks[v], p.locals[v]) != Item(tasks[w], p.locals[w])
  {
    assert Has(tasks[v], Item(tasks[v], p.locals[v])) && Has(tasks[w], Item(tasks[w], p.locals[w]));
  }

  lemma FlightOf(tasks: seq<Task>, s: Shared, p: Pool, p': Pool, w: nat, k: ItemKey)
    requires |p.locals| == |tasks| == |p'.locals| && NoSharedNew(tasks, s) && PoolInv(tasks, s, p)
    requires w < |tasks| && !Done(tasks[w], p.locals[w]) && p'.locals == p.locals[w := p'.locals[w]]
    requires Claims(tasks[w], p'.locals[w]) ==> p'.locals[w].i == p.locals[w].i
    ensures k != Item(tasks[w], p.locals[w]) ==> InFlight(tasks, p', k) == InFlight(tasks, p, k)
    ensures k == Item(tasks[w], p.locals[w]) ==>
      InFlight(tasks, p', k) == Flying(tasks[w], p'.locals[w]) && InFlight(tasks, p, k) == p.locals[w].pc.RecordOk?
  {
    forall v | 0 <= v < |tasks| && v != w && Claims(tasks[v], p.locals[v])
      ensures Item(tasks[v], p.locals[v]) != Item(tasks[w], p.locals[w])
    {
      ClaimsApart(tasks, s, p, w, v);
    }
    if InFlight(tasks, p, k) {
      var v :| 0 <= v < |tasks| && Flying(tasks[v], p.locals[v]) && Item(tasks[v], p.locals[v]) == k;
      if v != w { assert Flying(tasks[v], p'.locals[v]) && Item(tasks[v], p'.locals[v]) == k; }
    }
    if InFlight(tasks, p', k) {
      var v :| 0 <= v < |tasks| && Flying(tasks[v], p'.locals[v]) && Item(tasks[v], p'.locals[v]) == k;
      if v != w { assert Flying(tasks[v], p.locals[v]) && Item(tasks[v], p.locals[v]) == k; }
    }
  }

  function PoolStep(cfg: Config, tasks: seq<Task>, p: Pool, w: nat): Pool
    requires |p.locals| == |tasks| && w < |tasks|
  {
    var (s', l') := Step(cfg, tasks[w], p.shared, p.locals[w]);
    Pool(s', p.locals[w := l'])
  }

  lemma StepKeepsGain(cfg: Config, tasks: seq<Task>, s: Shared, p: Pool, w: nat, k: ItemKey)
    requires !cfg.dryRun && |p.locals| == |tasks| && NoSharedNew(tasks, s) && PoolInv(tasks, s, p)
    requires w < |tasks| && !Done(tasks[w], p.locals[w])
    ensures var p' := PoolStep(cfg, tasks, p, w);
      Gain(s, p'.shared, k) == Bit(Synced(p'.shared.items, k)) - Bit(Synced(s.items, k)) + Bit(InFlight(tasks, p', k))
  {
    var t, l := tasks[w], p.locals[w];
    ActItems(cfg, t, p.shared, l);
    EffectGain(p.shared, Act(cfg, t, p.shared, l).0, k);
    FlightOf(tasks, s, p, PoolStep(cfg, tasks, p, w), w, k);
  }

  lemma StepKeepsClaims(cfg: Config, tasks: seq<Task>, s: Shared, p: Pool, w: nat)
    requires !cfg.dryRun && |p.locals| == |tasks| && NoSharedNew(tasks, s) && PoolInv(tasks, s, p)
    requires w < |tasks| && !Done(tasks[w], p.locals[w])
    ensures var p' := PoolStep(cfg, tasks, p, w);
      && (forall k | Synced(s.items, k) :: Synced(p'.shared.items, k))
      && (forall v | 0 <= v < |tasks| && Claims(tasks[v], p'.locals[v]) ::
            !Synced(p'.shared.items, Item(tasks[v], p'.locals[v])))
  {
    var t, l, p' := tasks[w], p.locals[w], PoolStep(cfg, tasks, p, w);
    ActItems(cfg, t, p.shared, l);
    var e := Act(cfg, t, p.shared, l).0;
    forall k | Synced(s.items, k) ensures Synced(p'.shared.items, k) { EffectGain(p.shared, e, k); }
    forall v | 0 <= v < |tasks| && Claims(tasks[v], p'.locals[v])
      ensures !Synced(p'.shared.items, Item(tasks[v], p'.locals[v]))
    {
      EffectGain(p.shared, e, Item(tasks[v], p'.locals[v]));
      if v != w { ClaimsApart(tasks, s, p, w, v); }
    }
  }

  /**
   If tasks have no new message in common, then after every schedule of a live pool, whatever fails,
   the copies Gmail has accepted of a message are accounted for: one if it has become SYNCED, one
   while the worker that imported it is about to write the row, and the lost ones.
   */
  lemma {:induction false} PoolAccounted(cfg: Config, tasks: seq<Task>, s: Shared, schedule: seq<nat>)
    requires !cfg.dryRun && NoSharedNew(tasks, s) && ScheduleOf(schedule, |tasks|)
    ensures PoolInv(tasks, s, Interleave(cfg, tasks, s, schedule))
    decreases |schedule|
  {
    var end := Interleave(cfg, tasks, s, schedule);
    if schedule == [] {
      forall k ensures !InFlight(tasks, end, k) {}
    } else {
      var before, w := schedule[..|schedule| - 1], schedule[|schedule| - 1];
      PoolAccounted(cfg, tasks, s, before);
      var p := Interleave(cfg, tasks, s, before);
      if Done(tasks[w], p.locals[w]) {
        assert end == p;
      } else {
        assert end == PoolStep(cfg, tasks, p, w);
        StepKeepsClaims(cfg, tasks, s, p, w);
        forall k: ItemKey
          ensures Gain(s, end.shared, k) ==
                  Bit(Synced(end.shared.items, k)) - Bit(Synced(s.items, k)) + Bit(InFlight(tasks, end, k))
        {
          StepKeepsGain(cfg, tasks, s, p, w, k);
        }
      }
    }
  }

  // ---------------------------------------------------------------- when nothing is imported twice

  /** A live import in which every message is accepted and every SYNCED row gets written. */
  ghost predicate Reliable(cfg: Config) {
    && !cfg.dryRun && (forall u, i :: cfg.saveSynced(u, i))
    && forall u, i, labelId :: cfg.importMessage(u, i, labelId).Acked?
  }

  /** In no schedule does Gmail accept a message more than once. */
  ghost predicate ImportsOnce(cfg: Config, tasks: seq<Task>, s: Shared) {
    forall schedule, k | ScheduleOf(schedule, |tasks|) ::
      Interleave(cfg, tasks, s, schedule).shared.accepted[k] <= s.accepted[k] + 1
  }

  lemma {:induction false} NothingLost(cfg: Config, tasks: seq<Task>, s: Shared, schedule: seq<nat>)
    requires Reliable(cfg) && ScheduleOf(schedule, |tasks|)
    ensures Interleave(cfg, tasks, s, schedule).shared.lost == s.lost
    decreases |schedule|
  {
    if schedule != [] {
      var before, w := schedule[..|schedule| - 1], schedule[|schedule| - 1];
      NothingLost(cfg, tasks, s, before);
      var p := Interleave(cfg, tasks, s, before);
      assert cfg.saveSynced(User(tasks[w]), p.locals[w].i);
    }
  }

  lemma OnceIfApart(cfg: Config, tasks: seq<Task>, s: Shared, schedule: seq<nat>, k: ItemKey)
    requires Reliable(cfg) && ScheduleOf(schedule, |tasks|) && NoSharedNew(tasks, s)
    ensures Interleave(cfg, tasks, s, schedule).shared.accepted[k] <= s.accepted[k] + 1
  {
    PoolAccounted(cfg, tasks, s, schedule);
    NothingLost(cfg, tasks, s, schedule);
    var p := Interleave(cfg, tasks, s, schedule);
    if InFlight(tasks, p, k) {
      var w :| 0 <= w < |tasks| && Flying(tasks[w], p.locals[w]) && Item(tasks[w], p.locals[w]) == k;
      assert Claims(tasks[w], p.locals[w]);
    }
  }

  /** The worker is on its way to the import of entry `i`. */
  predicate OnTheWay(l: Local, i: nat) {
    !l.raised && l.i <= i && !l.pc.RecordFailed? && (l.i == i ==> !l.pc.RecordOk?)
  }

  lemma ActOnTheWay(cfg: Config, t: Task, s: Shared, l: Local, i: nat)
    requires Reliable(cfg) && i < |t.mails| && OnTheWay(l, i) && !Synced(s.items, ItemOf(t, t.mails[i]))
    ensures var (e, l') := Act(cfg, t, s, l);
      && (if l.i == i && l.pc.Import? then Flying(t, l') && l'.i == i && e.Accept? else OnTheWay(l', i))
      && (e.Accept? ==> l.pc.Import? && e.item == Item(t, l))
      && !e.AcceptLost? && (e.PutItem? ==> l.i < i && e.item == Item(t, l))
  {
    assert cfg.saveSynced(User(t), l.i);
    assert l.pc.Import? ==> cfg.importMessage(User(t), l.i, l.pc.labelId).Acked?;
  }

  lemma EffectAccepts(s: Shared, e: Effect, k: ItemKey)
    requires !e.AcceptLost?
    ensures Update(s, e).accepted[k] == s.accepted[k] + Bit(e.Accept? && e.item == k)
  {
  }

  lemma StepOnTheWay(cfg: Config, t: Task, s: Shared, l: Local, i: nat)
    requires Reliable(cfg) && i < |t.mails| && OnTheWay(l, i) && !Synced(s.items, ItemOf(t, t.mails[i]))
    requires l.i < i ==> Item(t, l) != ItemOf(t, t.mails[i])
    ensures var (s', l') := Step(cfg, t, s, l);
      var k := ItemOf(t, t.mails[i]);
      && !Synced(s'.items, k)
      && if l.i == i && l.pc.Import?
         then Flying(t, l') && l'.i == i && s'.accepted[k] == s.accepted[k] + 1
         else OnTheWay(l', i) && s'.accepted[k] == s.accepted[k]
  {
    var e := Act(cfg, t, s, l).0;
    ActOnTheWay(cfg, t, s, l, i);
    EffectGain(s, e, ItemOf(t, t.mails[i]));
    EffectAccepts(s, e, ItemOf(t, t.mails[i]));
  }

  lemma InterleaveStep(cfg: Config, tasks: seq<Task>, s: Shared, schedule: seq<nat>, w: nat)
    requires ScheduleOf(schedule, |tasks|) && w < |tasks|
    ensures ScheduleOf(schedule + [w], |tasks|)
    ensures Interleave(cfg, tasks, s, schedule + [w]) == PoolStep(cfg, tasks, Interleave(cfg, tasks, s, schedule), w)
  {
    assert (schedule + [w])[..|schedule|] == schedule;
  }

  /** One worker moves on alone until Gmail has accepted its entry `i` and the row is still to be written. */
  lemma {:induction false} RunTo(cfg: Config, tasks: seq<Task>, s: Shared, schedule: seq<nat>, w: nat, i: nat)
      returns (longer: seq<nat>)
    requires Reliable(cfg) && ScheduleOf(schedule, |tasks|) && w < |tasks| && i < |tasks[w].mails|
    requires forall j | 0 <= j < i :: ItemOf(tasks[w], tasks[w].mails[j]) != ItemOf(tasks[w], tasks[w].mails[i])
    requires var p := Interleave(cfg, tasks, s, schedule);
      OnTheWay(p.locals[w], i) && !Synced(p.shared.items, ItemOf(tasks[w], tasks[w].mails[i]))
    ensures ScheduleOf(longer, |tasks|)
    ensures var p, p' := Interleave(cfg, tasks, s, schedule), Interleave(cfg, tasks, s, longer);
      var k := ItemOf(tasks[w], tasks[w].mails[i]);
      && (forall v | 0 <= v < |tasks| && v != w :: p'.locals[v] == p.locals[v])
      && !Synced(p'.shared.items, k) && p'.shared.accepted[k] == p.shared.accepted[k] + 1
    decreases Left(tasks[w], Interleave(cfg, tasks, s, schedule).locals[w])
  {
    var p := Interleave(cfg, tasks, s, schedule);
    longer := schedule + [w];
    InterleaveStep(cfg, tasks, s, schedule, w);
    StepOnTheWay(cfg, tasks[w], p.shared, p.locals[w], i);
    StepProgress(cfg, tasks[w], p.shared, p.locals[w]);
    if !(p.locals[w].i == i && p.locals[w].pc.Import?) {
      longer := RunTo(cfg, tasks, s, longer, w, i);
    }
  }

  lemma {:induction false} FirstOf(t: Task, k: ItemKey, n: nat) returns (i: nat)
    requires n < |t.mails| && ItemOf(t, t.mails[n]) == k
    ensures i <= n && ItemOf(t, t.mails[i]) == k && forall j | 0 <= j < i :: ItemOf(t, t.mails[j]) != k
    decreases n
  {
    if j :| 0 <= j < n && ItemOf(t, t.mails[j]) == k {
      i := FirstOf(t, k, j);
    } else {
      i := n;
    }
  }

  /** Two archives with a new message in common: both workers can import it before either writes the row. */
  lemma SharedIsImportedTwice(cfg: Config, tasks: seq<Task>, s: Shared, w: nat, v: nat, k: ItemKey)
      returns (schedule: seq<nat>)
    requires Reliable(cfg) && w < v < |tasks| && Has(tasks[w], k) && Has(tasks[v], k) && !Synced(s.items, k)
    ensures ScheduleOf(schedule, |tasks|)
    ensures Interleave(cfg, tasks, s, schedule).shared.accepted[k] == s.accepted[k] + 2
  {
    var n :| 0 <= n < |tasks[w].mails| && ItemOf(tasks[w], tasks[w].mails[n]) == k;
    var m :| 0 <= m < |tasks[v].mails| && ItemOf(tasks[v], tasks[v].mails[m]) == k;
    var i := FirstOf(tasks[w], k, n);
    var j := FirstOf(tasks[v], k, m);
    assert Interleave(cfg, tasks, s, []) == Pool(s, seq(|tasks|, _ => START));
    schedule := RunTo(cfg, tasks, s, [], w, i);
    assert Interleave(cfg, tasks, s, schedule).locals[v] == START;
    schedule := RunTo(cfg, tasks, s, schedule, v, j);
  }

  /**
   When imports and row writes succeed: no schedule of the pool imports a message twice, exactly when
   no two archives have in common a message that is not in the checkpoint yet.  Whether they are
   archives of one user does not matter otherwise.
   */
  lemma ImportsOnceExactly(cfg: Config, tasks: seq<Task>, s: Shared)
    requires Reliable(cfg)
    ensures ImportsOnce(cfg, tasks, s) <==> NoSharedNew(tasks, s)
  {
    if NoSharedNew(tasks, s) {
      forall schedule, k | ScheduleOf(schedule, |tasks|)
        ensures Interleave(cfg, tasks, s, schedule).shared.accepted[k] <= s.accepted[k] + 1
      {
        OnceIfApart(cfg, tasks, s, schedule, k);
      }
    } else {
      var w, v, k :| 0 <= w < v < |tasks| && Has(tasks[w], k) && Has(tasks[v], k) && !Synced(s.items, k);
      var schedule := SharedIsImportedTwice(cfg, tasks, s, w, v, k);
    }
  }

  /** Archives of different users have no message in common at all. */
  lemma DistinctUsersShareNothing(tasks: seq<Task>, s: Shared)
    requires DistinctUsers(tasks)
    ensures NoSharedNew(tasks, s)
  {
    assert forall t, k | Has(t, k) :: k.user == User(t);
  }

  // ---------------------------------------------------------------- one archive after the other

  /** A worker alone is a pool of one. */
  lemma {:induction false} FinishAsPool(cfg: Config, t: Task, s: Shared, schedule: seq<nat>) returns (longer: seq<nat>)
    requires ScheduleOf(schedule, 1)
    ensures ScheduleOf(longer, 1)
    ensures var p, p' := Interleave(cfg, [t], s, schedule), Interleave(cfg, [t], s, longer);
      p'.shared == Finish(cfg, t, p.shared, p.locals[0]).0 && Done(t, p'.locals[0])
    decreases Left(t, Interleave(cfg, [t], s, schedule).locals[0])
  {
    var p := Interleave(cfg, [t], s, schedule);
    longer := schedule;
    if !Done(t, p.locals[0]) {
      InterleaveStep(cfg, [t], s, schedule, 0);
      StepProgress(cfg, t, p.shared, p.locals[0]);
      longer := FinishAsPool(cfg, t, s, schedule + [0]);
    }
  }

  lemma FinishAccounted(cfg: Config, t: Task, s: Shared, k: ItemKey)
    requires !cfg.dryRun
    ensures var s' := Finish(cfg, t, s, START).0;
      Gain(s, s', k) == Bit(Synced(s'.items, k)) - Bit(Synced(s.items, k))
  {
    assert Interleave(cfg, [t], s, []) == Pool(s, [START]);
    var schedule := FinishAsPool(cfg, t, s, []);
    PoolAccounted(cfg, [t], s, schedule);
    assert !InFlight([t], Interleave(cfg, [t], s, schedule), k);
  }

  /** One after the other, archives may have anything in common: every message is accounted for by its row. */
  lemma {:induction false} SequentialAccounted(cfg: Config, tasks: seq<Task>, s: Shared, k: ItemKey)
    requires !cfg.dryRun
    ensures var s' := OneByOne(cfg, tasks, s).shared;
      Gain(s, s', k) == Bit(Synced(s'.items, k)) - Bit(Synced(s.items, k))
    decreases |tasks|
  {
    if tasks != [] {
      SequentialAccounted(cfg, tasks[..|tasks| - 1], s, k);
      FinishAccounted(cfg, tasks[|tasks| - 1], OneByOne(cfg, tasks[..|tasks| - 1], s).shared, k);
    }
  }

  // ---------------------------------------------------------------- imports that come later

  /** What is known of a worker about a message that was SYNCED from the start: it has not claimed it. */
  predicate LeavesAlone(t: Task, l: Local, k: ItemKey) { Claims(t, l) ==> Item(t, l) != k }

  lemma ActLeavesAlone(cfg: Config, t: Task, s: Shared, l: Local, k: ItemKey)
    requires !Done(t, l) && LeavesAlone(t, l, k) && Synced(s.items, k)
    ensures var (e, l') := Act(cfg, t, s, l); LeavesAlone(t, l', k) && (e.PutItem? ==> e.item != k)
  {
  }

  /** Whatever the workers are, and however far they get: a row that is SYNCED at the start stays so. */
  lemma {:induction false} PoolKeepsSynced(cfg: Config, tasks: seq<Task>, s: Shared, schedule: seq<nat>, k: ItemKey)
    requires ScheduleOf(schedule, |tasks|) && Synced(s.items, k)
    ensures var p := Interleave(cfg, tasks, s, schedule);
      Synced(p.shared.items, k) && forall w | 0 <= w < |tasks| :: LeavesAlone(tasks[w], p.locals[w], k)
    decreases |schedule|
  {
    if schedule != [] {
      var before, w := schedule[..|schedule| - 1], schedule[|schedule| - 1];
      PoolKeepsSynced(cfg, tasks, s, before, k);
      var p := Interleave(cfg, tasks, s, before);
      if !Done(tasks[w], p.locals[w]) {
        ActLeavesAlone(cfg, tasks[w], p.shared, p.locals[w], k);
        EffectGain(p.shared, Act(cfg, tasks[w], p.shared, p.locals[w]).0, k);
      }
    }
  }

  /** A parallel import, dry or live, perhaps broken off; a new importer starts with an empty cache. */
  datatype Batch = Batch(cfg: Config, tasks: seq<Task>, schedule: seq<nat>, newImporter: bool)

  ghost predicate Batches(bs: seq<Batch>) {
    forall i | 0 <= i < |bs| :: ScheduleOf(bs[i].schedule, |bs[i].tasks|)
  }

  function AfterBatches(s: Shared, bs: seq<Batch>): Shared
    requires Batches(bs)
    decreases |bs|
  {
    if bs == [] then s
    else
      var b, before := bs[|bs| - 1], AfterBatches(s, bs[..|bs| - 1]);
      Interleave(b.cfg, b.tasks, if b.newImporter then before.(cache := map[]) else before, b.schedule).shared
  }

  lemma {:induction false} BatchesKeepSynced(s: Shared, bs: seq<Batch>, k: ItemKey)
    requires Batches(bs) && Synced(s.items, k)
    ensures Synced(AfterBatches(s, bs).items, k)
    decreases |bs|
  {
    if bs != [] {
      var b, before := bs[|bs| - 1], AfterBatches(s, bs[..|bs| - 1]);
      BatchesKeepSynced(s, bs[..|bs| - 1], k);
      PoolKeepsSynced(b.cfg, b.tasks, if b.newImporter then before.(cache := map[]) else before, b.schedule, k);
    }
  }

  /**
   After a clean import of an archive, and any number of parallel imports of anything in between,
   importing the archive again, in whatever mode, skips every entry and changes nothing.
   */
  lemma LaterImportSkipsAll(first: Config, t: Task, s: Shared, bs: seq<Batch>, later: Config)
    requires BulkImporter.MarksAll(first) && Batches(bs)
    ensures var s' := AfterBatches(Finish(first, t, s, START).0, bs);
      Finish(later, t, s', START) == (s', Local(|t.mails|, Check, 0, |t.mails|, 0, 0, false))
  {
    var s1 := Finish(first, t, s, START).0;
    BulkImporter.FinishMarks(first, t, s, START);
    forall j | 0 <= j < |t.mails| ensures Synced(AfterBatches(s1, bs).items, ItemOf(t, t.mails[j])) {
      BatchesKeepSynced(s1, bs, ItemOf(t, t.mails[j]));
    }
    BulkImporter.FinishSkips(later, t, AfterBatches(s1, bs), 0);
  }
}
