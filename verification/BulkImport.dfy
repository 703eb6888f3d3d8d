/**
 The bulk ZIP importer: worker threads, one archive each, over shared checkpoint tables and a
 shared label cache.  One step of a worker is one access to something shared or remote.  The
 remote answers are functions of the user and of the position in that user's archive.
 */
module BulkImport {
  import opened Prelude
  import opened Checkpoint
  import opened Labels

  datatype Mail = Mail(folder: string, messageId: string, size: nat, sha: string)

  datatype Task = Task(target: string, mails: seq<Mail>)

  /** An import is acknowledged with an id, or ends in an error although Gmail may have accepted the message. */
  datatype Answer = Acked(id: string) | Unacked(accepted: bool)

  datatype Config = Config(
    dryRun: bool,
    createLabel: (string, nat) -> Option<string>,  // user, position: label id, or an error
    saveMapping: (string, nat) -> bool,
    importMessage: (string, nat, string) -> Answer,          // user, position, label
    saveSynced: (string, nat) -> bool,
    saveFailed: (string, nat) -> bool)

  type Cache = map<FolderKey, string>

  /** A copy as Gmail holds it: the message, and the label it was filed under. */
  datatype Copy = Copy(item: ItemKey, labelId: string)

  /** What the workers share: the tables, the cache, and the history of what Google did for them. */
  datatype Shared = Shared(
    items: Items,
    folders: Folders,
    cache: Cache,
    accepted: multiset<ItemKey>,   // copies Gmail has accepted
    filed: multiset<Copy>,         // the same copies with their labels
    lost: multiset<ItemKey>,       // acceptances whose acknowledgement or SYNCED row was lost
    created: multiset<FolderKey>)  // requests for a label that Google has answered with an id

  datatype Pc =
    | Check
    | Resolve
    | Lookup
    | CacheFound(found: string)
    | Create
    | CacheNew(created: string)
    | Save(created: string)
    | Import(labelId: string)
    | RecordOk(destination: string)
    | RecordFailed

  /** `raised`: an exception has left import_user_zip. */
  datatype Local = Local(i: nat, pc: Pc, synced: nat, skipped: nat, failed: nat, bytes: nat, raised: bool)

  const START := Local(0, Check, 0, 0, 0, 0, false)

  // ---------------------------------------------------------------- labels that need no lookup

  predicate IsSlash(c: char) { c == '/' || c == '\\' }

  function StripSlashes(s: string): string
    decreases |s|
  {
    if s == [] then s
    else if IsSlash(s[0]) then StripSlashes(s[1..])
    else if IsSlash(s[|s| - 1]) then StripSlashes(s[..|s| - 1])
    else s
  }

  const STANDARD_FOLDERS: map<string, string> := map[
    "inbox" := "INBOX", "sent" := "SENT", "sent messages" := "SENT", "sent items" := "SENT",
    "trash" := "TRASH", "deleted" := "TRASH", "deleted items" := "TRASH", "bin" := "TRASH",
    "drafts" := "DRAFT", "draft" := "DRAFT", "spam" := "SPAM", "junk" := "SPAM", "starred" := "STARRED"]

  function SystemLabel(folder: string): Option<string> {
    var norm := Lower(StripSlashes(folder));
    if norm in STANDARD_FOLDERS then Some(STANDARD_FOLDERS[norm])
    else if norm == "" || norm == "." || norm == "root" || norm == "mail" then Some("INBOX")
    else None
  }

  /** The name under which a folder's label is created: forward slashes, none at the ends. */
  function LabelName(folder: string): string {
    StripSlashes(seq(|folder|, i requires 0 <= i < |folder| => if folder[i] == '\\' then '/' else folder[i]))
  }

  function User(t: Task): string { Norm(t.target) }

  function ItemOf(t: Task, m: Mail): ItemKey {
    ItemKey(MAIL, m.folder + "/" + m.messageId, User(t))
  }

  function FolderOf(t: Task, folder: string): FolderKey { FolderKey(User(t), folder) }

  // ---------------------------------------------------------------- one step of one worker

  /** What a step does to the shared state. */
  datatype Effect =
    | Nothing
    | PutItem(item: ItemKey, row: ItemRow)
    | PutFolder(folder: FolderKey, mapping: FolderRow)
    | PutCache(folder: FolderKey, labelId: string)
    | Accept(item: ItemKey, labelId: string)
    | Lose(item: ItemKey)
    | AcceptLost(item: ItemKey, labelId: string)
    | Created(folder: FolderKey)

  /** One more copy of a message, under a label. */
  function File(s: Shared, k: ItemKey, labelId: string): Shared {
    s.(accepted := s.accepted + multiset{k}, filed := s.filed + multiset{Copy(k, labelId)})
  }

  function Update(s: Shared, e: Effect): Shared {
    match e
    case Nothing => s
    case PutItem(k, row) => s.(items := s.items[k := row])
    case PutFolder(k, mapping) => s.(folders := s.folders[k := mapping])
    case PutCache(k, labelId) => s.(cache := s.cache[k := labelId])
    case Accept(k, labelId) => File(s, k, labelId)
    case Lose(k) => s.(lost := s.lost + multiset{k})
    case AcceptLost(k, labelId) => File(s, k, labelId).(lost := s.lost + multiset{k})
    case Created(k) => s.(created := s.created + multiset{k})
  }

  predicate Owned(e: Effect, user: string) {
    match e
    case Nothing => true
    case PutItem(k, _) => k.user == user
    case PutFolder(k, _) => k.user == user
    case PutCache(k, _) => k.user == user
    case Accept(k, _) => k.user == user
    case Lose(k) => k.user == user
    case AcceptLost(k, _) => k.user == user
    case Created(k) => k.user == user
  }

  predicate Done(t: Task, l: Local) { l.raised || l.i >= |t.mails| }

  function Next(l: Local): Local { l.(i := l.i + 1, pc := Check) }

  function Act(cfg: Config, t: Task, s: Shared, l: Local): (Effect, Local)
    requires !Done(t, l)
  {
    var m := t.mails[l.i];
    var key := FolderOf(t, m.folder);
    match l.pc
    case Check =>
      (Nothing, if Synced(s.items, ItemOf(t, m)) then Next(l.(skipped := l.skipped + 1)) else l.(pc := Resolve))
    case Resolve =>
      (Nothing, l.(pc := if SystemLabel(m.folder).Some? then Import(SystemLabel(m.folder).value)
                         else if key in s.cache then Import(s.cache[key]) else Lookup))
    case Lookup =>
      (Nothing, l.(pc := if Mapped(s.folders, key) then CacheFound(s.folders[key].labelId)
                         else if cfg.dryRun then Import("DRYRUN_LABEL_" + Lower(StripSlashes(m.folder)))
                         else Create))
    case CacheFound(found) =>
      (PutCache(key, found), l.(pc := Import(found)))
    case Create =>
      var answer := cfg.createLabel(User(t), l.i);
      if answer.Some? then (Created(key), l.(pc := CacheNew(answer.value))) else (Nothing, l.(pc := Import("INBOX")))
    case CacheNew(created) =>
      (PutCache(key, created), l.(pc := Save(created)))
    case Save(created) =>
      if cfg.saveMapping(User(t), l.i)
      then (PutFolder(key, FolderRow(LabelName(m.folder), created)), l.(pc := Import(created)))
      else (Nothing, l.(pc := Import("INBOX")))
    case Import(labelId) =>
      var answer := cfg.importMessage(User(t), l.i, labelId);
      if cfg.dryRun then (Nothing, l.(pc := RecordOk("dryrun_msg")))
      else if answer.Acked? then (Accept(ItemOf(t, m), labelId), l.(pc := RecordOk(answer.id)))
      else (if answer.accepted then AcceptLost(ItemOf(t, m), labelId) else Nothing, l.(pc := RecordFailed))
    case RecordOk(destination) =>
      var counted := l.(synced := l.synced + 1, bytes := l.bytes + m.size);
      if cfg.saveSynced(User(t), l.i) then
        (PutItem(ItemOf(t, m), ItemRow(SYNCED, Some(destination), Some(m.sha), None)), Next(counted))
      // a dry run counts before it records and lets the exception through; a live run catches it
      else if cfg.dryRun then (Nothing, counted.(raised := true))
      else (Lose(ItemOf(t, m)), l.(pc := RecordFailed))
    case RecordFailed =>
      if cfg.saveFailed(User(t), l.i) then
        (PutItem(ItemOf(t, m), ItemRow(FAILED, None, Some(m.sha), Some("error"))), Next(l.(failed := l.failed + 1)))
      else (Nothing, l.(raised := true))
  }

  function Step(cfg: Config, t: Task, s: Shared, l: Local): (Shared, Local) {
    if Done(t, l) then (s, l)
    else
      var (e, l') := Act(cfg, t, s, l);
      (Update(s, e), l')
  }

  function Phase(pc: Pc): nat {
    match pc
    case Check => 9
    case Resolve => 8
    case Lookup => 7
    case Create => 6
    case CacheNew(_) => 5
    case Save(_) => 4
    case CacheFound(_) => 4
    case Import(_) => 3
    case RecordOk(_) => 2
    case RecordFailed => 1
  }

  function Left(t: Task, l: Local): nat {
    if Done(t, l) then 0 else (|t.mails| - l.i) * 10 + Phase(l.pc)
  }

  lemma StepProgress(cfg: Config, t: Task, s: Shared, l: Local)
    requires !Done(t, l)
    ensures Left(t, Step(cfg, t, s, l).1) < Left(t, l)
  {
  }

  /** The worker runs on alone to the end of its archive. */
  function Finish(cfg: Config, t: Task, s: Shared, l: Local): (Shared, Local)
    decreases Left(t, l)
  {
    if Done(t, l) then (s, l)
    else
      StepProgress(cfg, t, s, l);
      var (s', l') := Step(cfg, t, s, l);
      Finish(cfg, t, s', l')
  }

  // ---------------------------------------------------------------- non-interference

  /** The two shared states agree on everything that belongs to a user. */
  ghost predicate SameFor(a: Shared, b: Shared, user: string) {
    SameTables(a, b, user) && SameHistory(a, b, user)
  }

  ghost predicate SameTables(a: Shared, b: Shared, user: string) {
    && (forall k: ItemKey | k.user == user ::
          (k in a.items <==> k in b.items) && (k in a.items ==> a.items[k] == b.items[k]))
    && (forall k: FolderKey | k.user == user ::
          (k in a.folders <==> k in b.folders) && (k in a.folders ==> a.folders[k] == b.folders[k]))
    && (forall k: FolderKey | k.user == user ::
          (k in a.cache <==> k in b.cache) && (k in a.cache ==> a.cache[k] == b.cache[k]))
  }

  ghost predicate SameHistory(a: Shared, b: Shared, user: string) {
    && (forall k: ItemKey | k.user == user :: a.accepted[k] == b.accepted[k] && a.lost[k] == b.lost[k])
    && (forall k: FolderKey | k.user == user :: a.created[k] == b.created[k])
    && SameCopies(a, b, user)
  }

  ghost predicate SameCopies(a: Shared, b: Shared, user: string) {
    forall c: Copy | c.item.user == user :: a.filed[c] == b.filed[c]
  }

  lemma SameForTrans(a: Shared, b: Shared, c: Shared, user: string)
    requires SameFor(a, b, user) && SameFor(b, c, user)
    ensures SameFor(a, c, user) && SameFor(b, a, user)
  {
  }

  lemma SameForSym(a: Shared, b: Shared, user: string)
    requires SameFor(a, b, user)
    ensures SameFor(b, a, user)
  {
  }

  /** Agreement for every user is equality. */
  lemma SameForAll(a: Shared, b: Shared)
    requires forall user: string :: SameFor(a, b, user)
    ensures a == b
  {
    forall k: ItemKey
      ensures (k in a.items <==> k in b.items) && (k in a.items ==> a.items[k] == b.items[k])
      ensures a.accepted[k] == b.accepted[k] && a.lost[k] == b.lost[k]
    {
      assert SameFor(a, b, k.user);
    }
    forall k: FolderKey
      ensures (k in a.folders <==> k in b.folders) && (k in a.folders ==> a.folders[k] == b.folders[k])
      ensures (k in a.cache <==> k in b.cache) && (k in a.cache ==> a.cache[k] == b.cache[k])
      ensures a.created[k] == b.created[k]
    {
      assert SameFor(a, b, k.user);
    }
    forall c: Copy ensures a.filed[c] == b.filed[c] {
      assert SameFor(a, b, c.item.user);
    }
    assert a.items == b.items && a.folders == b.folders && a.cache == b.cache;
    assert a.accepted == b.accepted && a.filed == b.filed && a.lost == b.lost && a.created == b.created;
  }

  lemma UpdateSameTables(a: Shared, b: Shared, e: Effect, user: string)
    requires SameTables(a, b, user)
    ensures SameTables(Update(a, e), Update(b, e), user)
  {
  }

  lemma UpdateSameCopies(a: Shared, b: Shared, e: Effect, user: string)
    requires SameCopies(a, b, user)
    ensures SameCopies(Update(a, e), Update(b, e), user)
  {
  }

  lemma UpdateSameHistory(a: Shared, b: Shared, e: Effect, user: string)
    requires SameHistory(a, b, user)
    ensures SameHistory(Update(a, e), Update(b, e), user)
  {
    UpdateSameCopies(a, b, e, user);
  }

  lemma UpdateSame(a: Shared, b: Shared, e: Effect, user: string)
    requires SameFor(a, b, user)
    ensures SameFor(Update(a, e), Update(b, e), user)
  {
    UpdateSameTables(a, b, e, user);
    UpdateSameHistory(a, b, e, user);
  }

  lemma UpdateLeavesOthers(s: Shared, e: Effect, owner: string, user: string)
    requires Owned(e, owner) && owner != user
    ensures SameFor(s, Update(s, e), user)
  {
  }

  lemma ActOwned(cfg: Config, t: Task, s: Shared, l: Local)
    requires !Done(t, l)
    ensures Owned(Act(cfg, t, s, l).0, User(t))
  {
  }

  /** A step touches only what belongs to the worker's own user. */
  lemma StepLeavesOthers(cfg: Config, t: Task, s: Shared, l: Local, user: string)
    requires user != User(t)
    ensures SameFor(s, Step(cfg, t, s, l).0, user)
  {
    if !Done(t, l) {
      ActOwned(cfg, t, s, l);
      UpdateLeavesOthers(s, Act(cfg, t, s, l).0, User(t), user);
    }
  }

  lemma ActCongruent(cfg: Config, t: Task, a: Shared, b: Shared, l: Local)
    requires !Done(t, l) && SameFor(a, b, User(t))
    ensures Act(cfg, t, a, l) == Act(cfg, t, b, l)
  {
  }

  /** A step depends only on what belongs to the worker's own user. */
  lemma StepCongruent(cfg: Config, t: Task, a: Shared, b: Shared, l: Local)
    requires SameFor(a, b, User(t))
    ensures Step(cfg, t, a, l).1 == Step(cfg, t, b, l).1
    ensures SameFor(Step(cfg, t, a, l).0, Step(cfg, t, b, l).0, User(t))
  {
    if !Done(t, l) {
      ActCongruent(cfg, t, a, b, l);
      UpdateSame(a, b, Act(cfg, t, a, l).0, User(t));
    }
  }

  lemma {:induction false} FinishLeavesOthers(cfg: Config, t: Task, s: Shared, l: Local, user: string)
    requires user != User(t)
    ensures SameFor(s, Finish(cfg, t, s, l).0, user)
    decreases Left(t, l)
  {
    if !Done(t, l) {
      StepProgress(cfg, t, s, l);
      StepLeavesOthers(cfg, t, s, l, user);
      var (s', l') := Step(cfg, t, s, l);
      FinishLeavesOthers(cfg, t, s', l', user);
      SameForTrans(s, s', Finish(cfg, t, s', l').0, user);
    }
  }

  lemma {:induction false} FinishCongruent(cfg: Config, t: Task, a: Shared, b: Shared, l: Local)
    requires SameFor(a, b, User(t))
    ensures Finish(cfg, t, a, l).1 == Finish(cfg, t, b, l).1
    ensures SameFor(Finish(cfg, t, a, l).0, Finish(cfg, t, b, l).0, User(t))
    decreases Left(t, l)
  {
    if !Done(t, l) {
      StepProgress(cfg, t, a, l);
      StepCongruent(cfg, t, a, b, l);
      FinishCongruent(cfg, t, Step(cfg, t, a, l).0, Step(cfg, t, b, l).0, Step(cfg, t, a, l).1);
    }
  }

  // ---------------------------------------------------------------- the thread pool

  datatype Pool = Pool(shared: Shared, locals: seq<Local>)

  ghost predicate DistinctUsers(tasks: seq<Task>) {
    forall i, j | 0 <= i < j < |tasks| :: User(tasks[i]) != User(tasks[j])
  }

  predicate ScheduleOf(schedule: seq<nat>, workers: nat) {
    forall i | 0 <= i < |schedule| :: schedule[i] < workers
  }

  /** The pool after the workers moved in the order of the schedule. */
  function Interleave(cfg: Config, tasks: seq<Task>, s: Shared, schedule: seq<nat>): Pool
    requires ScheduleOf(schedule, |tasks|)
    ensures |Interleave(cfg, tasks, s, schedule).locals| == |tasks|
    decreases |schedule|
  {
    if schedule == [] then Pool(s, seq(|tasks|, _ => START))
    else
      var p, w := Interleave(cfg, tasks, s, schedule[..|schedule| - 1]), schedule[|schedule| - 1];
      var (s', l') := Step(cfg, tasks[w], p.shared, p.locals[w]);
      Pool(s', p.locals[w := l'])
  }

  /** The archives imported one after the other. */
  function OneByOne(cfg: Config, tasks: seq<Task>, s: Shared): Pool
    ensures |OneByOne(cfg, tasks, s).locals| == |tasks|
    decreases |tasks|
  {
    if tasks == [] then Pool(s, [])
    else
      var p := OneByOne(cfg, tasks[..|tasks| - 1], s);
      var (s', l') := Finish(cfg, tasks[|tasks| - 1], p.shared, START);
      Pool(s', p.locals + [l'])
  }

  /** At every moment, running worker `w` to its end gives its user what running it alone from the start gives. */
  lemma {:induction false} OwnOutcome(cfg: Config, tasks: seq<Task>, s: Shared, schedule: seq<nat>, w: nat)
    requires DistinctUsers(tasks) && w < |tasks| && ScheduleOf(schedule, |tasks|)
    ensures var p, t := Interleave(cfg, tasks, s, schedule), tasks[w];
      && Finish(cfg, t, p.shared, p.locals[w]).1 == Finish(cfg, t, s, START).1
      && SameFor(Finish(cfg, t, p.shared, p.locals[w]).0, Finish(cfg, t, s, START).0, User(t))
    decreases |schedule|
  {
    if schedule != [] {
      var before, v := schedule[..|schedule| - 1], schedule[|schedule| - 1];
      OwnOutcome(cfg, tasks, s, before, w);
      var p, t := Interleave(cfg, tasks, s, before), tasks[w];
      var (s', l') := Step(cfg, tasks[v], p.shared, p.locals[v]);
      if v != w {
        assert User(tasks[v]) != User(t);
        StepLeavesOthers(cfg, tasks[v], p.shared, p.locals[v], User(t));
        FinishCongruent(cfg, t, p.shared, s', p.locals[w]);
        SameForTrans(Finish(cfg, t, p.shared, p.locals[w]).0, Finish(cfg, t, s', p.locals[w]).0,
                     Finish(cfg, t, s, START).0, User(t));
        SameForTrans(Finish(cfg, t, s', p.locals[w]).0, Finish(cfg, t, p.shared, p.locals[w]).0,
                     Finish(cfg, t, s, START).0, User(t));
      }
    }
  }

  lemma {:induction false} StrangersUntouched(cfg: Config, tasks: seq<Task>, s: Shared, schedule: seq<nat>, user: string)
    requires ScheduleOf(schedule, |tasks|)
    requires forall t | t in tasks :: User(t) != user
    ensures SameFor(s, Interleave(cfg, tasks, s, schedule).shared, user)
    decreases |schedule|
  {
    if schedule != [] {
      var before, v := schedule[..|schedule| - 1], schedule[|schedule| - 1];
      StrangersUntouched(cfg, tasks, s, before, user);
      var p := Interleave(cfg, tasks, s, before);
      StepLeavesOthers(cfg, tasks[v], p.shared, p.locals[v], user);
      SameForTrans(s, p.shared, Step(cfg, tasks[v], p.shared, p.locals[v]).0, user);
    }
  }

  lemma {:induction false} OneByOneOutcome(cfg: Config, tasks: seq<Task>, s: Shared, w: nat)
    requires DistinctUsers(tasks) && w < |tasks|
    ensures var p, t := OneByOne(cfg, tasks, s), tasks[w];
      && p.locals[w] == Finish(cfg, t, s, START).1
      && SameFor(p.shared, Finish(cfg, t, s, START).0, User(t))
    decreases |tasks|
  {
    var n := |tasks| - 1;
    var t := tasks[w];
    var p := OneByOne(cfg, tasks[..n], s);
    if w == n {
      OneByOneStrangers(cfg, tasks[..n], s, User(t));
      FinishCongruent(cfg, t, p.shared, s, START);
    } else {
      OneByOneOutcome(cfg, tasks[..n], s, w);
      assert User(tasks[n]) != User(t);
      FinishLeavesOthers(cfg, tasks[n], p.shared, START, User(t));
      var s' := Finish(cfg, tasks[n], p.shared, START).0;
      SameForSym(p.shared, s', User(t));
      SameForTrans(s', p.shared, Finish(cfg, t, s, START).0, User(t));
    }
  }

  lemma {:induction false} OneByOneStrangers(cfg: Config, tasks: seq<Task>, s: Shared, user: string)
    requires forall t | t in tasks :: User(t) != user
    ensures SameFor(s, OneByOne(cfg, tasks, s).shared, user) && SameFor(OneByOne(cfg, tasks, s).shared, s, user)
    decreases |tasks|
  {
    if tasks != [] {
      var n := |tasks| - 1;
      OneByOneStrangers(cfg, tasks[..n], s, user);
      var p := OneByOne(cfg, tasks[..n], s);
      FinishLeavesOthers(cfg, tasks[n], p.shared, START, user);
      SameForTrans(s, p.shared, Finish(cfg, tasks[n], p.shared, START).0, user);
    }
  }

  /**
   For pairwise distinct target users, every interleaving of the workers that runs to the end
   leaves the same item rows, folder rows, label cache and counters as importing the archives one
   after the other, and Google has accepted the same messages and created the same labels.
   */
  lemma ParallelIsSequential(cfg: Config, tasks: seq<Task>, s: Shared, schedule: seq<nat>)
    requires DistinctUsers(tasks) && ScheduleOf(schedule, |tasks|)
    requires forall w | 0 <= w < |tasks| :: Done(tasks[w], Interleave(cfg, tasks, s, schedule).locals[w])
    ensures Interleave(cfg, tasks, s, schedule) == OneByOne(cfg, tasks, s)
  {
    var p, q := Interleave(cfg, tasks, s, schedule), OneByOne(cfg, tasks, s);
    forall w: nat | w < |tasks|
      ensures p.locals[w] == q.locals[w] && SameFor(p.shared, q.shared, User(tasks[w]))
    {
      var t := tasks[w];
      OwnOutcome(cfg, tasks, s, schedule, w);
      OneByOneOutcome(cfg, tasks, s, w);
      assert Finish(cfg, t, p.shared, p.locals[w]) == (p.shared, p.locals[w]);
      SameForTrans(q.shared, Finish(cfg, t, s, START).0, q.shared, User(t));
      SameForTrans(p.shared, Finish(cfg, t, s, START).0, q.shared, User(t));
    }
    forall user: string ensures SameFor(p.shared, q.shared, user) {
      if w: nat :| w < |tasks| && User(tasks[w]) == user {
        assert SameFor(p.shared, q.shared, User(tasks[w]));
      } else {
        assert forall t | t in tasks :: User(t) != user;
        StrangersUntouched(cfg, tasks, s, schedule, user);
        OneByOneStrangers(cfg, tasks, s, user);
        SameForTrans(s, p.shared, s, user);
        SameForTrans(p.shared, s, q.shared, user);
      }
    }
    SameForAll(p.shared, q.shared);
    assert p.locals == q.locals;
  }
}
