/** The labels the thread pool has Google create: when once per folder, in any interleaving, whatever fails. */
module BulkLabels {
  import opened Prelude
  import opened Checkpoint
  import opened Labels
  import opened BulkImport
  import opened BulkHistory

  predicate Known(s: Shared, k: FolderKey) { Mapped(s.folders, k) || k in s.cache }

  /** Entry `i` is in folder `k`, which needs a label of its own, and is not in the checkpoint yet. */
  predicate NewEntry(t: Task, s: Shared, i: nat, k: FolderKey)
    requires i < |t.mails|
  {
    && FolderOf(t, t.mails[i].folder) == k && SystemLabel(t.mails[i].folder).None?
    && !Synced(s.items, ItemOf(t, t.mails[i]))
  }

  predicate WantsNew(t: Task, s: Shared, k: FolderKey) {
    exists i | 0 <= i < |t.mails| :: NewEntry(t, s, i, k)
  }

  /** A folder for which two tasks have new messages has its label already. */
  ghost predicate NoSharedNewFolder(tasks: seq<Task>, s: Shared) {
    forall w, v, k | 0 <= w < v < |tasks| && WantsNew(tasks[w], s, k) && WantsNew(tasks[v], s, k) :: Known(s, k)
  }

  function FolderAt(t: Task, l: Local): FolderKey
    requires !Done(t, l)
  {
    FolderOf(t, t.mails[l.i].folder)
  }

  /** Google has created the label, and it is about to be cached. */
  predicate Fresh(t: Task, l: Local) { !Done(t, l) && l.pc.CacheNew? }

  /** The worker has not found the folder in the cache. */
  predicate Seeking(t: Task, l: Local) { Fresh(t, l) || (!Done(t, l) && (l.pc.Lookup? || l.pc.Create?)) }

  /** The worker has not found the folder in the table either. */
  predicate Making(t: Task, l: Local) { Fresh(t, l) || (!Done(t, l) && (l.pc.Create? || l.pc.Save?)) }

  /** What is known of one worker. */
  ghost predicate WorkerOk(t: Task, s: Shared, now: Shared, l: Local) {
    && (Claims(t, l) ==> !Synced(s.items, Item(t, l)))
    && (Seeking(t, l) || Making(t, l) ==> SystemLabel(t.mails[l.i].folder).None? && FolderAt(t, l) !in s.cache)
    && (Seeking(t, l) ==> FolderAt(t, l) !in now.cache || Mapped(s.folders, FolderAt(t, l)))
    && (Making(t, l) ==> !Mapped(s.folders, FolderAt(t, l)))
  }

  ghost predicate BeingCached(tasks: seq<Task>, p: Pool, k: FolderKey)
    requires |p.locals| == |tasks|
  {
    exists w | 0 <= w < |tasks| && Fresh(tasks[w], p.locals[w]) :: FolderAt(tasks[w], p.locals[w]) == k
  }

  /** A label has been created at most once, and then it is cached or about to be; a known one never. */
  ghost predicate LabelOk(tasks: seq<Task>, s: Shared, p: Pool, k: FolderKey)
    requires |p.locals| == |tasks|
  {
    && (k in s.cache ==> k in p.shared.cache)
    && (Mapped(s.folders, k) ==> k in p.shared.folders && p.shared.folders[k] == s.folders[k])
    && p.shared.created[k] <= s.created[k] + Bit(!Known(s, k) && (k in p.shared.cache || BeingCached(tasks, p, k)))
  }

  ghost predicate LabelInv(tasks: seq<Task>, s: Shared, p: Pool)
    requires |p.locals| == |tasks|
  {
    && (forall k | Synced(s.items, k) :: Synced(p.shared.items, k))
    && (forall w | 0 <= w < |tasks| :: WorkerOk(tasks[w], s, p.shared, p.locals[w]))
    && forall k :: LabelOk(tasks, s, p, k)
  }

  lemma ActLabels(cfg: Config, t: Task, s: Shared, l: Local)
    requires !Done(t, l)
    ensures var (e, l') := Act(cfg, t, s, l);
      && (Seeking(t, l') || Making(t, l') ==> l'.i == l.i)
      && (Seeking(t, l') ==> Seeking(t, l) || (SystemLabel(t.mails[l.i].folder).None? && FolderAt(t, l) !in s.cache))
      && (Making(t, l') ==> Making(t, l) || (Seeking(t, l) && !Mapped(s.folders, FolderAt(t, l))))
      && match e
         case PutFolder(k, _) => k == FolderAt(t, l) && Making(t, l) && !Fresh(t, l) && !Fresh(t, l')
         case PutCache(k, _) => k == FolderAt(t, l) && !Seeking(t, l')
         case Created(k) => k == FolderAt(t, l) && Making(t, l) && Seeking(t, l) && !Fresh(t, l) && Fresh(t, l')
         case _ => !Fresh(t, l) && !Fresh(t, l')
  {
  }

  lemma EffectLabels(s: Shared, e: Effect, k: FolderKey)
    ensures var s' := Update(s, e);
      && s'.created[k] == s.created[k] + Bit(e == Created(k))
      && (k in s'.cache <==> k in s.cache || (e.PutCache? && e.folder == k))
      && (!(e.PutFolder? && e.folder == k) ==> (k in s'.folders <==> k in s.folders)
                                               && (k in s.folders ==> s'.folders[k] == s.folders[k]))
  {
  }

  lemma ActClaims(cfg: Config, t: Task, s: Shared, l: Local)
    requires !Done(t, l)
    ensures var (e, l') := Act(cfg, t, s, l);
      && (Claims(t, l') ==> l'.i == l.i && (Claims(t, l) || !Synced(s.items, Item(t, l))))
      && (e.PutItem? ==> e.item == Item(t, l) && Claims(t, l))
      && (l.pc.Check? ==> e.Nothing? && !Fresh(t, l'))
  {
  }

  /** Two workers busy with new messages of one folder, one of which looks for its label: it had one from the start. */
  lemma SharedIsKnown(tasks: seq<Task>, s: Shared, p: Pool, w: nat, v: nat)
    requires |p.locals| == |tasks| && NoSharedNewFolder(tasks, s) && LabelInv(tasks, s, p)
    requires w < |tasks| && v < |tasks| && v != w && Claims(tasks[w], p.locals[w])
    requires Seeking(tasks[v], p.locals[v]) || Making(tasks[v], p.locals[v])
    requires FolderAt(tasks[v], p.locals[v]) == FolderAt(tasks[w], p.locals[w])
    ensures Mapped(s.folders, FolderAt(tasks[v], p.locals[v])) && !Making(tasks[v], p.locals[v])
  {
    var k := FolderAt(tasks[v], p.locals[v]);
    assert WorkerOk(tasks[v], s, p.shared, p.locals[v]) && WorkerOk(tasks[w], s, p.shared, p.locals[w]);
    assert NewEntry(tasks[v], s, p.locals[v].i, k) && NewEntry(tasks[w], s, p.locals[w].i, k);
    var a, b := if w < v then w else v, if w < v then v else w;
    assert a < b && WantsNew(tasks[a], s, k) && WantsNew(tasks[b], s, k);
    assert Known(s, k);
  }

  lemma CachingOf(tasks: seq<Task>, s: Shared, p: Pool, p': Pool, w: nat, k: FolderKey)
    requires |p.locals| == |tasks| == |p'.locals| && NoSharedNewFolder(tasks, s) && LabelInv(tasks, s, p)
    requires w < |tasks| && !Done(tasks[w], p.locals[w]) && p'.locals == p.locals[w := p'.locals[w]]
    requires Fresh(tasks[w], p'.locals[w]) ==> p'.locals[w].i == p.locals[w].i && Claims(tasks[w], p.locals[w])
    ensures k != FolderAt(tasks[w], p.locals[w]) || !Claims(tasks[w], p.locals[w]) ==>
      BeingCached(tasks, p', k) == BeingCached(tasks, p, k)
    ensures k == FolderAt(tasks[w], p.locals[w]) && Claims(tasks[w], p.locals[w]) ==>
      && BeingCached(tasks, p', k) == Fresh(tasks[w], p'.locals[w])
      && BeingCached(tasks, p, k) == Fresh(tasks[w], p.locals[w])
  {
    forall v | 0 <= v < |tasks| && v != w && Fresh(tasks[v], p.locals[v]) && Claims(tasks[w], p.locals[w])
      ensures FolderAt(tasks[v], p.locals[v]) != FolderAt(tasks[w], p.locals[w])
    {
      if FolderAt(tasks[v], p.locals[v]) == FolderAt(tasks[w], p.locals[w]) { SharedIsKnown(tasks, s, p, w, v); }
    }
    if BeingCached(tasks, p, k) {
      var v :| 0 <= v < |tasks| && Fresh(tasks[v], p.locals[v]) && FolderAt(tasks[v], p.locals[v]) == k;
      if v != w { assert Fresh(tasks[v], p'.locals[v]) && FolderAt(tasks[v], p'.locals[v]) == k; }
    }
    if BeingCached(tasks, p', k) {
      var v :| 0 <= v < |tasks| && Fresh(tasks[v], p'.locals[v]) && FolderAt(tasks[v], p'.locals[v]) == k;
      if v != w { assert Fresh(tasks[v], p.locals[v]) && FolderAt(tasks[v], p.locals[v]) == k; }
    }
  }

  lemma StepKeepsLabel(cfg: Config, tasks: seq<Task>, s: Shared, p: Pool, w: nat, k: FolderKey)
    requires |p.locals| == |tasks| && NoSharedNewFolder(tasks, s) && LabelInv(tasks, s, p)
    requires w < |tasks| && !Done(tasks[w], p.locals[w])
    ensures LabelOk(tasks, s, PoolStep(cfg, tasks, p, w), k)
  {
    var t, l := tasks[w], p.locals[w];
    assert WorkerOk(t, s, p.shared, l) && LabelOk(tasks, s, p, k);
    ActLabels(cfg, t, p.shared, l);
    ActClaims(cfg, t, p.shared, l);
    EffectLabels(p.shared, Act(cfg, t, p.shared, l).0, k);
    CachingOf(tasks, s, p, PoolStep(cfg, tasks, p, w), w, k);
  }

  lemma StepKeepsWorker(cfg: Config, tasks: seq<Task>, s: Shared, p: Pool, w: nat, v: nat)
    requires |p.locals| == |tasks| && NoSharedNewFolder(tasks, s) && LabelInv(tasks, s, p)
    requires w < |tasks| && v < |tasks| && !Done(tasks[w], p.locals[w])
    ensures var p' := PoolStep(cfg, tasks, p, w); WorkerOk(tasks[v], s, p'.shared, p'.locals[v])
  {
    var t, l, p' := tasks[w], p.locals[w], PoolStep(cfg, tasks, p, w);
    assert WorkerOk(t, s, p.shared, l) && WorkerOk(tasks[v], s, p.shared, p.locals[v]);
    ActLabels(cfg, t, p.shared, l);
    ActClaims(cfg, t, p.shared, l);
    if Seeking(tasks[v], p'.locals[v]) || Making(tasks[v], p'.locals[v]) {
      var k := FolderAt(tasks[v], p'.locals[v]);
      EffectLabels(p.shared, Act(cfg, t, p.shared, l).0, k);
      assert LabelOk(tasks, s, p, k);
      if v != w && Claims(t, l) && FolderAt(t, l) == k { SharedIsKnown(tasks, s, p, w, v); }
    }
  }

  /** Rows that were SYNCED at the start stay so: nobody claims their messages. */
  lemma StepKeepsRows(cfg: Config, tasks: seq<Task>, s: Shared, p: Pool, w: nat, k: ItemKey)
    requires |p.locals| == |tasks| && LabelInv(tasks, s, p) && Synced(s.items, k)
    requires w < |tasks| && !Done(tasks[w], p.locals[w])
    ensures Synced(PoolStep(cfg, tasks, p, w).shared.items, k)
  {
    assert WorkerOk(tasks[w], s, p.shared, p.locals[w]) && Synced(p.shared.items, k);
    ActClaims(cfg, tasks[w], p.shared, p.locals[w]);
    EffectGain(p.shared, Act(cfg, tasks[w], p.shared, p.locals[w]).0, k);
  }

  lemma {:induction false} PoolLabels(cfg: Config, tasks: seq<Task>, s: Shared, schedule: seq<nat>)
    requires NoSharedNewFolder(tasks, s) && ScheduleOf(schedule, |tasks|)
    ensures LabelInv(tasks, s, Interleave(cfg, tasks, s, schedule))
    decreases |schedule|
  {
    if schedule != [] {
      var before, w := schedule[..|schedule| - 1], schedule[|schedule| - 1];
      PoolLabels(cfg, tasks, s, before);
      var p, end := Interleave(cfg, tasks, s, before), Interleave(cfg, tasks, s, schedule);
      if Done(tasks[w], p.locals[w]) {
        assert end == p;
      } else {
        assert end == PoolStep(cfg, tasks, p, w);
        forall v | 0 <= v < |tasks| ensures WorkerOk(tasks[v], s, end.shared, end.locals[v]) {
          StepKeepsWorker(cfg, tasks, s, p, w, v);
        }
        forall k | Synced(s.items, k) ensures Synced(end.shared.items, k) { StepKeepsRows(cfg, tasks, s, p, w, k); }
        forall k: FolderKey ensures LabelOk(tasks, s, end, k) { StepKeepsLabel(cfg, tasks, s, p, w, k); }
      }
    }
  }

  /**
   If tasks have no new messages in a common unknown folder, then after every schedule, dry or live
   and whatever fails, Google has created at most one label for a folder and none for a folder known
   before, and its mapping stands.
   */
  lemma LabelsCreatedOnce(cfg: Config, tasks: seq<Task>, s: Shared, schedule: seq<nat>, k: FolderKey)
    requires NoSharedNewFolder(tasks, s) && ScheduleOf(schedule, |tasks|)
    ensures var s' := Interleave(cfg, tasks, s, schedule).shared;
      && s'.created[k] <= s.created[k] + Bit(!Known(s, k))
      && (Mapped(s.folders, k) ==> k in s'.folders && s'.folders[k] == s.folders[k])
  {
    PoolLabels(cfg, tasks, s, schedule);
    assert LabelOk(tasks, s, Interleave(cfg, tasks, s, schedule), k);
  }

  // ---------------------------------------------------------------- when a label is created twice

  /** A live import that always gets its labels and can always record a failure. */
  ghost predicate Obliging(cfg: Config) {
    && !cfg.dryRun && (forall u, i :: cfg.createLabel(u, i).Some?) && forall u, i :: cfg.saveFailed(u, i)
  }

  predicate HasIn(t: Task, item: ItemKey, folder: string) {
    exists i | 0 <= i < |t.mails| :: ItemOf(t, t.mails[i]) == item && t.mails[i].folder == folder
  }

  /** Messages of different folders have different item keys. */
  ghost predicate KeysTellFolders(tasks: seq<Task>) {
    forall w, v, item, f, g | 0 <= w < |tasks| && 0 <= v < |tasks| && HasIn(tasks[w], item, f) && HasIn(tasks[v], item, g) ::
      f == g
  }

  /** In no schedule is a folder's label created more than once. */
  ghost predicate CreatesOnce(cfg: Config, tasks: seq<Task>, s: Shared) {
    forall schedule, k | ScheduleOf(schedule, |tasks|) ::
      Interleave(cfg, tasks, s, schedule).shared.created[k] <= s.created[k] + 1
  }

  /** So far nothing has happened to folder `k`: no label, and no row for any of its messages. */
  ghost predicate Quiet(tasks: seq<Task>, s: Shared, now: Shared, k: FolderKey) {
    && !Known(now, k) && now.created[k] == s.created[k]
    && forall v, i | 0 <= v < |tasks| && 0 <= i < |tasks[v].mails| && FolderOf(tasks[v], tasks[v].mails[i].folder) == k ::
         Synced(now.items, ItemOf(tasks[v], tasks[v].mails[i])) == Synced(s.items, ItemOf(tasks[v], tasks[v].mails[i]))
  }

  /** The worker is on its way to the creation of a label for entry `i`, the first new one of its folder. */
  predicate OnItsWay(t: Task, l: Local, i: nat, k: FolderKey)
    requires i < |t.mails|
  {
    && !l.raised && l.i <= i
    && (if l.i == i then l.pc.Check? || l.pc.Resolve? || l.pc.Lookup? else FolderAt(t, l) == k ==> l.pc.Check?)
  }

  ghost predicate FirstNew(t: Task, s: Shared, i: nat, k: FolderKey) {
    i < |t.mails| && NewEntry(t, s, i, k) && forall j | 0 <= j < i :: !NewEntry(t, s, j, k)
  }

  /** What a step on the way does to folder `k`: nothing. */
  lemma ActOnItsWay(cfg: Config, t: Task, s: Shared, now: Shared, l: Local, i: nat, k: FolderKey)
    requires Obliging(cfg) && FirstNew(t, s, i, k) && OnItsWay(t, l, i, k) && !Known(now, k)
    requires FolderAt(t, l) == k ==> Synced(now.items, Item(t, l)) == Synced(s.items, Item(t, l))
    ensures var (e, l') := Act(cfg, t, now, l);
      && (if l.i == i && l.pc.Lookup? then l'.i == i && l'.pc.Create? && !l'.raised else OnItsWay(t, l', i, k))
      && (FolderAt(t, l) == k ==> e.Nothing?)
      && (e.PutItem? ==> e.item == Item(t, l))
      && (e.PutFolder? || e.PutCache? || e.Created? ==> e.folder == FolderAt(t, l))
  {
    assert cfg.createLabel(User(t), l.i).Some? && cfg.saveFailed(User(t), l.i);
    if l.i < i && FolderAt(t, l) == k {
      assert !NewEntry(t, s, l.i, k);
      assert t.mails[l.i].folder == t.mails[i].folder;
    }
  }

  lemma StepQuiet(cfg: Config, tasks: seq<Task>, s: Shared, p: Pool, w: nat, i: nat, k: FolderKey)
    requires |p.locals| == |tasks| && w < |tasks| && KeysTellFolders(tasks) && Quiet(tasks, s, p.shared, k)
    requires Obliging(cfg) && FirstNew(tasks[w], s, i, k) && OnItsWay(tasks[w], p.locals[w], i, k)
    ensures var p', l := PoolStep(cfg, tasks, p, w), p.locals[w];
      && Quiet(tasks, s, p'.shared, k)
      && if l.i == i && l.pc.Lookup? then p'.locals[w].i == i && p'.locals[w].pc.Create? && !p'.locals[w].raised
         else OnItsWay(tasks[w], p'.locals[w], i, k)
  {
    var t, l, now := tasks[w], p.locals[w], p.shared;
    ActOnItsWay(cfg, t, s, now, l, i, k);
    var e := Act(cfg, t, now, l).0;
    EffectLabels(now, e, k);
    forall v, j | 0 <= v < |tasks| && 0 <= j < |tasks[v].mails| && FolderOf(tasks[v], tasks[v].mails[j].folder) == k
      ensures Synced(Update(now, e).items, ItemOf(tasks[v], tasks[v].mails[j])) ==
              Synced(s.items, ItemOf(tasks[v], tasks[v].mails[j]))
    {
      var item := ItemOf(tasks[v], tasks[v].mails[j]);
      EffectGain(now, e, item);
      assert HasIn(tasks[v], item, tasks[v].mails[j].folder) && HasIn(t, Item(t, l), t.mails[l.i].folder);
      assert item.user == k.user && Item(t, l).user == User(t);
    }
  }

  /** One worker moves on alone until it is about to have the label of its entry `i` created. */
  lemma {:induction false} RunToCreate(cfg: Config, tasks: seq<Task>, s: Shared, schedule: seq<nat>,
                                       w: nat, i: nat, k: FolderKey)
      returns (longer: seq<nat>)
    requires Obliging(cfg) && KeysTellFolders(tasks) && ScheduleOf(schedule, |tasks|)
    requires w < |tasks| && FirstNew(tasks[w], s, i, k)
    requires var p := Interleave(cfg, tasks, s, schedule);
      Quiet(tasks, s, p.shared, k) && OnItsWay(tasks[w], p.locals[w], i, k)
    ensures ScheduleOf(longer, |tasks|)
    ensures var p, p' := Interleave(cfg, tasks, s, schedule), Interleave(cfg, tasks, s, longer);
      && (forall v | 0 <= v < |tasks| && v != w :: p'.locals[v] == p.locals[v])
      && Quiet(tasks, s, p'.shared, k) && p'.locals[w].i == i && p'.locals[w].pc.Create? && !p'.locals[w].raised
    decreases Left(tasks[w], Interleave(cfg, tasks, s, schedule).locals[w])
  {
    var p := Interleave(cfg, tasks, s, schedule);
    longer := schedule + [w];
    InterleaveStep(cfg, tasks, s, schedule, w);
    StepQuiet(cfg, tasks, s, p, w, i, k);
    StepProgress(cfg, tasks[w], p.shared, p.locals[w]);
    if !(p.locals[w].i == i && p.locals[w].pc.Lookup?) {
      longer := RunToCreate(cfg, tasks, s, longer, w, i, k);
    }
  }

  lemma {:induction false} FirstOfFolder(t: Task, s: Shared, k: FolderKey, n: nat) returns (i: nat)
    requires n < |t.mails| && NewEntry(t, s, n, k)
    ensures FirstNew(t, s, i, k)
    decreases n
  {
    if j :| 0 <= j < n && NewEntry(t, s, j, k) {
      i := FirstOfFolder(t, s, k, j);
    } else {
      i := n;
    }
  }

  lemma Creates(cfg: Config, t: Task, s: Shared, l: Local)
    requires !Done(t, l) && l.pc.Create? && cfg.createLabel(User(t), l.i).Some?
    ensures Step(cfg, t, s, l).0.created == s.created + multiset{FolderAt(t, l)}
  {
  }

  /** Two archives with new messages in one unknown folder: both workers can have its label created. */
  lemma SharedFolderIsCreatedTwice(cfg: Config, tasks: seq<Task>, s: Shared, w: nat, v: nat, k: FolderKey)
      returns (schedule: seq<nat>)
    requires Obliging(cfg) && KeysTellFolders(tasks) && w < v < |tasks| && !Known(s, k)
    requires WantsNew(tasks[w], s, k) && WantsNew(tasks[v], s, k)
    ensures ScheduleOf(schedule, |tasks|)
    ensures Interleave(cfg, tasks, s, schedule).shared.created[k] == s.created[k] + 2
  {
    var n :| 0 <= n < |tasks[w].mails| && NewEntry(tasks[w], s, n, k);
    var m :| 0 <= m < |tasks[v].mails| && NewEntry(tasks[v], s, m, k);
    var i := FirstOfFolder(tasks[w], s, k, n);
    var j := FirstOfFolder(tasks[v], s, k, m);
    assert Interleave(cfg, tasks, s, []) == Pool(s, seq(|tasks|, _ => START));
    schedule := RunToCreate(cfg, tasks, s, [], w, i, k);
    assert Interleave(cfg, tasks, s, schedule).locals[v] == START;
    schedule := RunToCreate(cfg, tasks, s, schedule, v, j, k);
    schedule := BothCreate(cfg, tasks, s, schedule, w, v, k);
  }

  lemma BothCreate(cfg: Config, tasks: seq<Task>, s: Shared, schedule: seq<nat>, w: nat, v: nat, k: FolderKey)
      returns (longer: seq<nat>)
    requires Obliging(cfg) && w < v < |tasks| && ScheduleOf(schedule, |tasks|)
    requires var p := Interleave(cfg, tasks, s, schedule);
      forall u | u == w || u == v ::
        !Done(tasks[u], p.locals[u]) && p.locals[u].pc.Create? && FolderAt(tasks[u], p.locals[u]) == k
    ensures ScheduleOf(longer, |tasks|)
    ensures Interleave(cfg, tasks, s, longer).shared.created[k] ==
            Interleave(cfg, tasks, s, schedule).shared.created[k] + 2
  {
    var p := Interleave(cfg, tasks, s, schedule);
    InterleaveStep(cfg, tasks, s, schedule, w);
    InterleaveStep(cfg, tasks, s, schedule + [w], v);
    assert cfg.createLabel(User(tasks[w]), p.locals[w].i).Some? && cfg.createLabel(User(tasks[v]), p.locals[v].i).Some?;
    Creates(cfg, tasks[w], p.shared, p.locals[w]);
    Creates(cfg, tasks[v], Step(cfg, tasks[w], p.shared, p.locals[w]).0, p.locals[v]);
    longer := schedule + [w] + [v];
  }

  /**
   For a live import that always gets its labels, and archives whose item keys tell folders apart: no
   schedule has a folder's label created twice, exactly when no two archives have new messages in a
   common folder without a label.
   */
  lemma CreatesOnceExactly(cfg: Config, tasks: seq<Task>, s: Shared)
    requires Obliging(cfg) && KeysTellFolders(tasks)
    ensures CreatesOnce(cfg, tasks, s) <==> NoSharedNewFolder(tasks, s)
  {
    if NoSharedNewFolder(tasks, s) {
      forall schedule, k | ScheduleOf(schedule, |tasks|)
        ensures Interleave(cfg, tasks, s, schedule).shared.created[k] <= s.created[k] + 1
      {
        LabelsCreatedOnce(cfg, tasks, s, schedule, k);
      }
    } else {
      var w, v, k :| 0 <= w < v < |tasks| && WantsNew(tasks[w], s, k) && WantsNew(tasks[v], s, k) && !Known(s, k);
      var schedule := SharedFolderIsCreatedTwice(cfg, tasks, s, w, v, k);
    }
  }
}
