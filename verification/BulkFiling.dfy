/**
 What the thread pool leaves behind of each message, in any interleaving and whatever fails: the label
 every copy is filed under, and what stands in every row.
 */
module BulkFiling {
  import opened Prelude
  import opened Checkpoint
  import opened Labels
  import opened BulkImport
  import opened BulkHistory

  predicate EntryIn(tasks: seq<Task>, w: nat, i: nat, k: FolderKey) {
    w < |tasks| && i < |tasks[w].mails| && FolderOf(tasks[w], tasks[w].mails[i].folder) == k
  }

  predicate EntryOf(tasks: seq<Task>, w: nat, i: nat, k: ItemKey) {
    w < |tasks| && i < |tasks[w].mails| && ItemOf(tasks[w], tasks[w].mails[i]) == k
  }

  /** The folder had the label from the start, or Google has created it for an entry of that very folder. */
  ghost predicate OwnLabel(cfg: Config, tasks: seq<Task>, s: Shared, k: FolderKey, labelId: string) {
    || (k in s.cache && s.cache[k] == labelId)
    || (Mapped(s.folders, k) && s.folders[k].labelId == labelId)
    || (!cfg.dryRun && exists w: nat, i: nat | EntryIn(tasks, w, i, k) :: cfg.createLabel(k.user, i) == Some(labelId))
  }

  /** For some entry of the folder, Google did not create the label or the table did not take it. */
  ghost predicate Defaulted(cfg: Config, tasks: seq<Task>, k: FolderKey) {
    exists w: nat, i: nat | EntryIn(tasks, w, i, k) :: cfg.createLabel(k.user, i).None? || !cfg.saveMapping(k.user, i)
  }

  /** The label a message of the folder may be given. */
  ghost predicate RightLabel(cfg: Config, tasks: seq<Task>, s: Shared, t: Task, folder: string, labelId: string) {
    if SystemLabel(folder).Some? then labelId == SystemLabel(folder).value
    else
      || OwnLabel(cfg, tasks, s, FolderOf(t, folder), labelId)
      || (if cfg.dryRun then labelId == "DRYRUN_LABEL_" + Lower(StripSlashes(folder))
          else labelId == "INBOX" && Defaulted(cfg, tasks, FolderOf(t, folder)))
  }

  /** The id in a SYNCED row: the one Gmail acknowledged the import under the right label with. */
  ghost predicate RightId(cfg: Config, tasks: seq<Task>, s: Shared, t: Task, i: nat, id: string)
    requires i < |t.mails|
  {
    if cfg.dryRun then id == "dryrun_msg"
    else exists labelId | RightLabel(cfg, tasks, s, t, t.mails[i].folder, labelId) ::
           cfg.importMessage(User(t), i, labelId) == Acked(id)
  }

  /** A copy of an entry, under the right label of the folder of that entry. */
  ghost predicate RightCopy(cfg: Config, tasks: seq<Task>, s: Shared, c: Copy) {
    !cfg.dryRun && exists w: nat, i: nat | EntryOf(tasks, w, i, c.item) ::
      RightLabel(cfg, tasks, s, tasks[w], tasks[w].mails[i].folder, c.labelId)
  }

  /** A row of an entry, with its digest: SYNCED with Gmail's id, or FAILED with an error. */
  ghost predicate RightRow(cfg: Config, tasks: seq<Task>, s: Shared, k: ItemKey, row: ItemRow) {
    exists w: nat, i: nat | EntryOf(tasks, w, i, k) ::
      && row.checksum == Some(tasks[w].mails[i].sha)
      && match row.status
         case SYNCED =>
           row.error.None? && row.destination.Some? && RightId(cfg, tasks, s, tasks[w], i, row.destination.value)
         case FAILED => row.error.Some? && row.destination.None? && !cfg.dryRun
         case FAILED_SIZE_EXCEEDED => false
  }

  // ---------------------------------------------------------------- what every step keeps

  ghost predicate WorkerFiles(cfg: Config, tasks: seq<Task>, s: Shared, t: Task, l: Local) {
    !Done(t, l) ==>
      var folder := t.mails[l.i].folder;
      match l.pc
      case Check => true
      case Resolve => true
      case Lookup => SystemLabel(folder).None?
      case Create => SystemLabel(folder).None? && !cfg.dryRun
      case CacheFound(found) => SystemLabel(folder).None? && OwnLabel(cfg, tasks, s, FolderOf(t, folder), found)
      case CacheNew(made) =>
        SystemLabel(folder).None? && !cfg.dryRun && OwnLabel(cfg, tasks, s, FolderOf(t, folder), made)
      case Save(made) =>
        SystemLabel(folder).None? && !cfg.dryRun && OwnLabel(cfg, tasks, s, FolderOf(t, folder), made)
      case Import(labelId) => RightLabel(cfg, tasks, s, t, folder, labelId)
      case RecordOk(id) => RightId(cfg, tasks, s, t, l.i, id)
      case RecordFailed => !cfg.dryRun
  }

  ghost predicate LabelsFiled(cfg: Config, tasks: seq<Task>, s: Shared, now: Shared) {
    && (forall k | k in now.cache :: OwnLabel(cfg, tasks, s, k, now.cache[k]))
    && (forall k | Mapped(now.folders, k) :: OwnLabel(cfg, tasks, s, k, now.folders[k].labelId))
    && (forall k | k in now.folders ::
          (k in s.folders && now.folders[k] == s.folders[k]) || now.folders[k].name == LabelName(k.folder))
  }

  ghost predicate CopiesFiled(cfg: Config, tasks: seq<Task>, s: Shared, now: Shared) {
    && (forall c | now.filed[c] > s.filed[c] :: RightCopy(cfg, tasks, s, c))
    && |now.filed| - |s.filed| == |now.accepted| - |s.accepted|
    && forall c :: s.filed[c] <= now.filed[c]
                   && now.filed[c] as int - s.filed[c] as int <= now.accepted[c.item] as int - s.accepted[c.item] as int
  }

  ghost predicate RowsFiled(cfg: Config, tasks: seq<Task>, s: Shared, now: Shared) {
    forall k | k in now.items :: (k in s.items && now.items[k] == s.items[k]) || RightRow(cfg, tasks, s, k, now.items[k])
  }

  ghost predicate RightEffect(cfg: Config, tasks: seq<Task>, s: Shared, e: Effect) {
    match e
    case PutCache(k, labelId) => OwnLabel(cfg, tasks, s, k, labelId)
    case PutFolder(k, mapping) => OwnLabel(cfg, tasks, s, k, mapping.labelId) && mapping.name == LabelName(k.folder)
    case Accept(k, labelId) => RightCopy(cfg, tasks, s, Copy(k, labelId))
    case AcceptLost(k, labelId) => RightCopy(cfg, tasks, s, Copy(k, labelId))
    case PutItem(k, row) => RightRow(cfg, tasks, s, k, row)
    case _ => true
  }

  lemma ResolveFiles(cfg: Config, tasks: seq<Task>, s: Shared, now: Shared, w: nat, l: Local)
    requires w < |tasks| && !Done(tasks[w], l) && LabelsFiled(cfg, tasks, s, now)
    requires l.pc.Check? || l.pc.Resolve? || l.pc.Lookup? || l.pc.CacheFound?
    requires WorkerFiles(cfg, tasks, s, tasks[w], l)
    ensures var (e, l') := Act(cfg, tasks[w], now, l);
      RightEffect(cfg, tasks, s, e) && WorkerFiles(cfg, tasks, s, tasks[w], l')
  {
  }

  lemma CreateFiles(cfg: Config, tasks: seq<Task>, s: Shared, now: Shared, w: nat, l: Local)
    requires w < |tasks| && !Done(tasks[w], l)
    requires l.pc.Create? || l.pc.CacheNew? || l.pc.Save?
    requires WorkerFiles(cfg, tasks, s, tasks[w], l)
    ensures var (e, l') := Act(cfg, tasks[w], now, l);
      RightEffect(cfg, tasks, s, e) && WorkerFiles(cfg, tasks, s, tasks[w], l')
  {
    assert EntryIn(tasks, w, l.i, FolderOf(tasks[w], tasks[w].mails[l.i].folder));
  }

  lemma DeliverFiles(cfg: Config, tasks: seq<Task>, s: Shared, now: Shared, w: nat, l: Local)
    requires w < |tasks| && !Done(tasks[w], l)
    requires l.pc.Import? || l.pc.RecordOk? || l.pc.RecordFailed?
    requires WorkerFiles(cfg, tasks, s, tasks[w], l)
    ensures var (e, l') := Act(cfg, tasks[w], now, l);
      RightEffect(cfg, tasks, s, e) && WorkerFiles(cfg, tasks, s, tasks[w], l')
  {
    assert EntryOf(tasks, w, l.i, ItemOf(tasks[w], tasks[w].mails[l.i]));
  }

  lemma EffectFilesLabels(cfg: Config, tasks: seq<Task>, s: Shared, now: Shared, e: Effect)
    requires LabelsFiled(cfg, tasks, s, now) && RightEffect(cfg, tasks, s, e)
    ensures LabelsFiled(cfg, tasks, s, Update(now, e))
  {
  }

  lemma EffectFilesCopies(cfg: Config, tasks: seq<Task>, s: Shared, now: Shared, e: Effect)
    requires CopiesFiled(cfg, tasks, s, now) && RightEffect(cfg, tasks, s, e)
    ensures CopiesFiled(cfg, tasks, s, Update(now, e))
  {
  }

  lemma EffectFilesRows(cfg: Config, tasks: seq<Task>, s: Shared, now: Shared, e: Effect)
    requires RowsFiled(cfg, tasks, s, now) && RightEffect(cfg, tasks, s, e)
    ensures RowsFiled(cfg, tasks, s, Update(now, e))
  {
  }

  ghost predicate FilingInv(cfg: Config, tasks: seq<Task>, s: Shared, p: Pool)
    requires |p.locals| == |tasks|
  {
    && LabelsFiled(cfg, tasks, s, p.shared) && CopiesFiled(cfg, tasks, s, p.shared) && RowsFiled(cfg, tasks, s, p.shared)
    && forall w | 0 <= w < |tasks| :: WorkerFiles(cfg, tasks, s, tasks[w], p.locals[w])
  }

  lemma StepFiles(cfg: Config, tasks: seq<Task>, s: Shared, p: Pool, w: nat)
    requires |p.locals| == |tasks| && w < |tasks| && FilingInv(cfg, tasks, s, p) && !Done(tasks[w], p.locals[w])
    ensures FilingInv(cfg, tasks, s, PoolStep(cfg, tasks, p, w))
  {
    var l := p.locals[w];
    if l.pc.Import? || l.pc.RecordOk? || l.pc.RecordFailed? {
      DeliverFiles(cfg, tasks, s, p.shared, w, l);
    } else if l.pc.Create? || l.pc.CacheNew? || l.pc.Save? {
      CreateFiles(cfg, tasks, s, p.shared, w, l);
    } else {
      ResolveFiles(cfg, tasks, s, p.shared, w, l);
    }
    var e := Act(cfg, tasks[w], p.shared, l).0;
    EffectFilesLabels(cfg, tasks, s, p.shared, e);
    EffectFilesCopies(cfg, tasks, s, p.shared, e);
    EffectFilesRows(cfg, tasks, s, p.shared, e);
  }

  /**
   After every schedule: every new copy Gmail holds is under a label that belongs to the folder of its
   entry, or in the inbox if a creation or save for that folder has failed, and every new row carries the
   digest of its entry and, if SYNCED, the id Gmail acknowledged that import with.
   */
  lemma {:induction false} PoolFiles(cfg: Config, tasks: seq<Task>, s: Shared, schedule: seq<nat>)
    requires ScheduleOf(schedule, |tasks|)
    ensures FilingInv(cfg, tasks, s, Interleave(cfg, tasks, s, schedule))
    decreases |schedule|
  {
    if schedule != [] {
      var before, w := schedule[..|schedule| - 1], schedule[|schedule| - 1];
      PoolFiles(cfg, tasks, s, before);
      var p := Interleave(cfg, tasks, s, before);
      if !Done(tasks[w], p.locals[w]) { StepFiles(cfg, tasks, s, p, w); }
    }
  }

  // ---------------------------------------------------------------- the names of folders

  lemma {:induction false} StripSlashesDrops(s: string) returns (i: nat, j: nat)
    ensures i <= j <= |s| && StripSlashes(s) == s[i..j]
    ensures forall k | 0 <= k < |s| && !(i <= k < j) :: s[k] == '/' || s[k] == '\\'
    ensures i < j ==> !(s[i] in "/\\") && !(s[j - 1] in "/\\")
    decreases |s|
  {
    i, j := 0, |s|;
    if s != [] && IsSlash(s[0]) {
      i, j := StripSlashesDrops(s[1..]);
      i, j := i + 1, j + 1;
      assert forall k | 1 <= k < |s| :: s[k] == s[1..][k - 1];
    } else if s != [] && IsSlash(s[|s| - 1]) {
      i, j := StripSlashesDrops(s[..|s| - 1]);
      assert forall k | 0 <= k < |s| - 1 :: s[k] == s[..|s| - 1][k];
    }
  }

  /** The name of a folder's label: its path with forward slashes, and none at the ends. */
  lemma LabelNameIs(folder: string) returns (i: nat, j: nat)
    ensures i <= j <= |folder| && |LabelName(folder)| == j - i
    ensures forall k | 0 <= k < |folder| && !(i <= k < j) :: folder[k] == '/' || folder[k] == '\\'
    ensures forall k | 0 <= k < j - i :: LabelName(folder)[k] == if folder[i + k] == '\\' then '/' else folder[i + k]
    ensures i < j ==> folder[i] !in "/\\" && folder[j - 1] !in "/\\"
  {
    var path := seq(|folder|, i requires 0 <= i < |folder| => if folder[i] == '\\' then '/' else folder[i]);
    i, j := StripSlashesDrops(path);
    forall k | 0 <= k < |folder| && !(i <= k < j) ensures folder[k] == '/' || folder[k] == '\\' {
      assert path[k] == '/' || path[k] == '\\';
    }
  }

  /** Entries share a row exactly if they are one user's and agree in folder and message id, written as one path. */
  lemma ItemsApart(t: Task, m: Mail, u: Task, n: Mail)
    ensures ItemOf(t, m) == ItemOf(u, n) <==>
              Norm(t.target) == Norm(u.target) && m.folder + "/" + m.messageId == n.folder + "/" + n.messageId
  {
  }

  /** The folders that need no label of their own, by their names without case and slashes at the ends. */
  lemma SystemFolders(folder: string)
    ensures var n, l := Lower(StripSlashes(folder)), SystemLabel(folder);
      && (l == Some("INBOX") <==> n in {"inbox", "", ".", "root", "mail"})
      && (l == Some("SENT") <==> n in {"sent", "sent messages", "sent items"})
      && (l == Some("TRASH") <==> n in {"trash", "deleted", "deleted items", "bin"})
      && (l == Some("DRAFT") <==> n in {"drafts", "draft"})
      && (l == Some("SPAM") <==> n in {"spam", "junk"})
      && (l == Some("STARRED") <==> n == "starred")
      && (l.Some? ==> l.value in {"INBOX", "SENT", "TRASH", "DRAFT", "SPAM", "STARRED"})
  {
  }

  // ---------------------------------------------------------------- bytes

  function Sizes(t: Task, which: seq<nat>): nat
    requires forall j | 0 <= j < |which| :: which[j] < |t.mails|
  {
    if which == [] then 0 else t.mails[which[0]].size + Sizes(t, which[1..])
  }

  /** The bytes reported are those of the entries counted as synced, each once. */
  lemma {:induction false} FinishBytes(cfg: Config, t: Task, s: Shared, l: Local) returns (which: seq<nat>)
    ensures forall j | 0 <= j < |which| :: l.i <= which[j] < |t.mails|
    ensures forall a, b | 0 <= a < b < |which| :: which[a] < which[b]
    ensures var l' := Finish(cfg, t, s, l).1;
      l'.synced == l.synced + |which| && l'.bytes == l.bytes + Sizes(t, which)
    decreases Left(t, l)
  {
    which := [];
    if !Done(t, l) {
      StepProgress(cfg, t, s, l);
      var (s', l') := Step(cfg, t, s, l);
      ActBytes(cfg, t, s, l);
      if l'.raised {
        if l'.synced > l.synced { which := [l.i]; }
      } else {
        var rest := FinishBytes(cfg, t, s', l');
        which := if l'.synced > l.synced then [l.i] + rest else rest;
        assert l'.synced > l.synced ==> which[1..] == rest;
        assert forall a | 0 <= a < |rest| :: rest[a] >= l'.i;
      }
    }
  }

  lemma ActBytes(cfg: Config, t: Task, s: Shared, l: Local)
    requires !Done(t, l)
    ensures var l' := Act(cfg, t, s, l).1;
      && l.i <= l'.i && l.synced <= l'.synced <= l.synced + 1
      && l'.bytes == l.bytes + (if l'.synced > l.synced then t.mails[l.i].size else 0)
      && (l'.synced > l.synced ==> l'.i == l.i + 1 || l'.raised)
  {
  }
}
