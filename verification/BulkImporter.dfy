/**
 The importer object, its label cache, and what one archive import leaves behind for the next.
 `ResolveLabel` and `ImportUserZip` are proved against the worker steps of `BulkImport`.
 */
module BulkImporter {
  import opened Prelude
  import opened Checkpoint
  import opened Labels
  import opened BulkImport

  // ---------------------------------------------------------------- one entry in one go

  function ResolveAt(cfg: Config, t: Task, s: Shared, i: nat): (Shared, string)
    requires i < |t.mails|
  {
    var m := t.mails[i];
    var key := FolderOf(t, m.folder);
    if SystemLabel(m.folder).Some? then (s, SystemLabel(m.folder).value)
    else if key in s.cache then (s, s.cache[key])
    else if Mapped(s.folders, key) then (Update(s, PutCache(key, s.folders[key].labelId)), s.folders[key].labelId)
    else if cfg.dryRun then (s, "DRYRUN_LABEL_" + Lower(StripSlashes(m.folder)))
    else CreateAt(cfg, t, s, i)
  }

  function CreateAt(cfg: Config, t: Task, s: Shared, i: nat): (Shared, string)
    requires i < |t.mails|
  {
    var key := FolderOf(t, t.mails[i].folder);
    var answer := cfg.createLabel(User(t), i);
    if answer.None? then (s, "INBOX")
    else
      var cached := Update(Update(s, Created(key)), PutCache(key, answer.value));
      if cfg.saveMapping(User(t), i)
      then (Update(cached, PutFolder(key, FolderRow(LabelName(t.mails[i].folder), answer.value))), answer.value)
      else (cached, "INBOX")
  }

  /** Import and record entry `l.i`, whose label is known. */
  function DeliverAt(cfg: Config, t: Task, s: Shared, l: Local): (Shared, Local)
    requires !Done(t, l) && l.pc.Import?
  {
    if cfg.dryRun then RecordAt(cfg, t, s, l, "dryrun_msg")
    else
      var answer := cfg.importMessage(User(t), l.i, l.pc.labelId);
      var item := ItemOf(t, t.mails[l.i]);
      if answer.Unacked? then FailAt(cfg, t, if answer.accepted then Update(s, AcceptLost(item, l.pc.labelId)) else s, l)
      else RecordAt(cfg, t, Update(s, Accept(item, l.pc.labelId)), l, answer.id)
  }

  /** From an accepted import, or a dry run's, to the end of the entry. */
  function RecordAt(cfg: Config, t: Task, s: Shared, l: Local, destination: string): (Shared, Local)
    requires !Done(t, l)
  {
    var m := t.mails[l.i];
    var counted := l.(synced := l.synced + 1, bytes := l.bytes + m.size);
    if cfg.saveSynced(User(t), l.i) then
      (Update(s, PutItem(ItemOf(t, m), ItemRow(SYNCED, Some(destination), Some(m.sha), None))), Next(counted))
    else if cfg.dryRun then (s, counted.(pc := RecordOk(destination), raised := true))
    else FailAt(cfg, t, Update(s, Lose(ItemOf(t, m))), l)
  }

  /** The except block around an import. */
  function FailAt(cfg: Config, t: Task, s: Shared, l: Local): (Shared, Local)
    requires !Done(t, l)
  {
    var m := t.mails[l.i];
    if cfg.saveFailed(User(t), l.i) then
      (Update(s, PutItem(ItemOf(t, m), ItemRow(FAILED, None, Some(m.sha), Some("error")))), Next(l.(failed := l.failed + 1)))
    else (s, l.(pc := RecordFailed, raised := true))
  }

  lemma FinishStep(cfg: Config, t: Task, s: Shared, l: Local)
    requires !Done(t, l)
    ensures var (e, l') := Act(cfg, t, s, l); Finish(cfg, t, s, l) == Finish(cfg, t, Update(s, e), l')
  {
  }

  lemma CreateRuns(cfg: Config, t: Task, s: Shared, l: Local)
    requires !Done(t, l) && l.pc.Create?
    ensures var r := CreateAt(cfg, t, s, l.i);
      Finish(cfg, t, s, l) == Finish(cfg, t, r.0, l.(pc := Import(r.1)))
  {
    FinishStep(cfg, t, s, l);
    var answer := cfg.createLabel(User(t), l.i);
    if answer.Some? {
      var key := FolderOf(t, t.mails[l.i].folder);
      var made := Update(s, Created(key));
      FinishStep(cfg, t, made, l.(pc := CacheNew(answer.value)));
      FinishStep(cfg, t, Update(made, PutCache(key, answer.value)), l.(pc := Save(answer.value)));
    }
  }

  /** The worker steps from the start of a resolution to its end, taken alone, are the resolution. */
  lemma ResolveRuns(cfg: Config, t: Task, s: Shared, l: Local)
    requires !Done(t, l) && l.pc.Resolve?
    ensures var r := ResolveAt(cfg, t, s, l.i);
      Finish(cfg, t, s, l) == Finish(cfg, t, r.0, l.(pc := Import(r.1)))
  {
    var m := t.mails[l.i];
    var key := FolderOf(t, m.folder);
    FinishStep(cfg, t, s, l);
    if SystemLabel(m.folder).None? && key !in s.cache {
      FinishStep(cfg, t, s, l.(pc := Lookup));
      if Mapped(s.folders, key) {
        FinishStep(cfg, t, s, l.(pc := CacheFound(s.folders[key].labelId)));
      } else if !cfg.dryRun {
        CreateRuns(cfg, t, s, l.(pc := Create));
      }
    }
  }

  lemma FailRuns(cfg: Config, t: Task, s: Shared, l: Local)
    requires !Done(t, l)
    ensures var (s', l') := FailAt(cfg, t, s, l); Finish(cfg, t, s, l.(pc := RecordFailed)) == Finish(cfg, t, s', l')
  {
    FinishStep(cfg, t, s, l.(pc := RecordFailed));
  }

  lemma RecordRuns(cfg: Config, t: Task, s: Shared, l: Local, destination: string)
    requires !Done(t, l)
    ensures var (s', l') := RecordAt(cfg, t, s, l, destination);
      Finish(cfg, t, s, l.(pc := RecordOk(destination))) == Finish(cfg, t, s', l')
  {
    FinishStep(cfg, t, s, l.(pc := RecordOk(destination)));
    if !cfg.saveSynced(User(t), l.i) && !cfg.dryRun { FailRuns(cfg, t, Update(s, Lose(ItemOf(t, t.mails[l.i]))), l); }
  }

  lemma DeliverRuns(cfg: Config, t: Task, s: Shared, l: Local)
    requires !Done(t, l) && l.pc.Import?
    ensures var (s', l') := DeliverAt(cfg, t, s, l); Finish(cfg, t, s, l) == Finish(cfg, t, s', l')
  {
    FinishStep(cfg, t, s, l);
    if cfg.dryRun {
      RecordRuns(cfg, t, s, l, "dryrun_msg");
    } else {
      var answer := cfg.importMessage(User(t), l.i, l.pc.labelId);
      var item := ItemOf(t, t.mails[l.i]);
      if answer.Unacked? {
        FailRuns(cfg, t, if answer.accepted then Update(s, AcceptLost(item, l.pc.labelId)) else s, l);
      } else {
        RecordRuns(cfg, t, Update(s, Accept(item, l.pc.labelId)), l, answer.id);
      }
    }
  }

  class ZohoBulkZipImporter {
    const cfg: Config
    const store: CheckpointStore
    var labelCache: Cache
    ghost var accepted: multiset<ItemKey>
    ghost var filed: multiset<Copy>
    ghost var lost: multiset<ItemKey>
    ghost var created: multiset<FolderKey>

    ghost function S(): Shared
      reads this, store
    {
      Shared(store.items, store.folders, labelCache, accepted, filed, lost, created)
    }

    constructor (cfg: Config, store: CheckpointStore)
      ensures this.cfg == cfg && this.store == store
      ensures S() == Shared(store.items, store.folders, map[], multiset{}, multiset{}, multiset{}, multiset{})
    {
      this.cfg, this.store := cfg, store;
      labelCache := map[];
      accepted, filed, lost, created := multiset{}, multiset{}, multiset{}, multiset{};
    }

    method ResolveLabel(ghost t: Task, user: string, i: nat, folder: string) returns (labelId: string)
      requires i < |t.mails| && folder == t.mails[i].folder && user == User(t)
      modifies this, store`folders
      ensures (S(), labelId) == ResolveAt(cfg, t, old(S()), i)
    {
      NormIsNormal(t.target);
      var system := SystemLabel(folder);
      if system.Some? { return system.value; }
      var key := FolderKey(Norm(user), folder);
      if key in labelCache { return labelCache[key]; }
      var known := store.GetGoogleLabelId(user, folder);
      if known.Some? && known.value != "" {
        labelCache := labelCache[key := known.value];
        return known.value;
      }
      if cfg.dryRun { return "DRYRUN_LABEL_" + Lower(StripSlashes(folder)); }
      labelId := CreateLabel(t, user, i, folder);
    }

    /** The try block of the resolution. */
    method CreateLabel(ghost t: Task, user: string, i: nat, folder: string) returns (labelId: string)
      requires i < |t.mails| && folder == t.mails[i].folder && user == User(t)
      modifies this, store`folders
      ensures (S(), labelId) == CreateAt(cfg, t, old(S()), i)
    {
      NormIsNormal(t.target);
      var key := FolderKey(Norm(user), folder);
      var answer := cfg.createLabel(user, i);
      if answer.None? { return "INBOX"; }
      created := created + multiset{key};
      labelCache := labelCache[key := answer.value];
      if !cfg.saveMapping(user, i) { return "INBOX"; }
      store.SaveFolderMapping(user, folder, LabelName(folder), answer.value);
      return answer.value;
    }

    /** The except block. */
    method Fail(ghost t: Task, user: string, m: Mail, l: Local) returns (l': Local)
      requires !Done(t, l) && m == t.mails[l.i] && user == User(t)
      modifies this, store`items
      ensures (S(), l') == FailAt(cfg, t, old(S()), l)
    {
      NormIsNormal(t.target);
      if !cfg.saveFailed(user, l.i) { return l.(pc := RecordFailed, raised := true); }
      store.RecordItemSync(MAIL, m.folder + "/" + m.messageId, user, ItemRow(FAILED, None, Some(m.sha), Some("error")));
      return Next(l.(failed := l.failed + 1));
    }

    /** Record an accepted import, or a dry run's; the exception of a failed commit is caught in a live run only. */
    method Record(ghost t: Task, user: string, m: Mail, l: Local, destination: string) returns (l': Local)
      requires !Done(t, l) && m == t.mails[l.i] && user == User(t)
      modifies this, store`items
      ensures (S(), l') == RecordAt(cfg, t, old(S()), l, destination)
    {
      NormIsNormal(t.target);
      var counted := l.(synced := l.synced + 1, bytes := l.bytes + m.size);
      if cfg.saveSynced(user, l.i) {
        var row := ItemRow(SYNCED, Some(destination), Some(m.sha), None);
        store.RecordItemSync(MAIL, m.folder + "/" + m.messageId, user, row);
        return Next(counted);
      }
      if cfg.dryRun { return counted.(pc := RecordOk(destination), raised := true); }
      lost := lost + multiset{ItemOf(t, m)};
      l' := Fail(t, user, m, l);
    }

    /** Import and record an entry whose label is known. */
    method Deliver(ghost t: Task, user: string, m: Mail, l: Local) returns (l': Local)
      requires !Done(t, l) && l.pc.Import? && m == t.mails[l.i] && user == User(t)
      modifies this, store`items
      ensures (S(), l') == DeliverAt(cfg, t, old(S()), l)
    {
      NormIsNormal(t.target);
      if cfg.dryRun {
        l' := Record(t, user, m, l, "dryrun_msg");
      } else {
        var answer := cfg.importMessage(user, l.i, l.pc.labelId);
        if answer.Acked? || answer.accepted {
          accepted, filed := accepted + multiset{ItemOf(t, m)}, filed + multiset{Copy(ItemOf(t, m), l.pc.labelId)};
        }
        if answer.Acked? {
          l' := Record(t, user, m, l, answer.id);
        } else {
          if answer.accepted { lost := lost + multiset{ItemOf(t, m)}; }
          l' := Fail(t, user, m, l);
        }
      }
    }

    /** What import_user_zip does with an entry that is not in the checkpoint yet. */
    method ImportEntry(ghost t: Task, user: string, m: Mail, l: Local) returns (l': Local)
      requires !Done(t, l) && l.pc.Resolve? && m == t.mails[l.i] && user == User(t)
      modifies this, store
      ensures l'.raised || (l'.i == l.i + 1 && l'.pc.Check?)
      ensures Finish(cfg, t, S(), l') == Finish(cfg, t, old(S()), l)
    {
      ResolveRuns(cfg, t, S(), l);
      var labelId := ResolveLabel(t, user, l.i, m.folder);
      DeliverRuns(cfg, t, S(), l.(pc := Import(labelId)));
      l' := Deliver(t, user, m, l.(pc := Import(labelId)));
    }

    /** import_user_zip over the entries of an archive; the result holds the counters, and whether it raised. */
    method ImportUserZip(target: string, mails: seq<Mail>) returns (l: Local)
      modifies this, store
      ensures (S(), l) == Finish(cfg, Task(target, mails), old(S()), START)
    {
      var user := Norm(target);
      ghost var t := Task(target, mails);
      NormIsNormal(target);
      l := START;
      while l.i < |mails| && !l.raised
        invariant l.raised || (l.i <= |mails| && l.pc.Check?)
        invariant Finish(cfg, t, S(), l) == Finish(cfg, t, old(S()), START)
        decreases !l.raised, |mails| - l.i
      {
        var m := mails[l.i];
        FinishStep(cfg, t, S(), l);
        var done := store.IsItemSynced(MAIL, m.folder + "/" + m.messageId, user);
        if done {
          l := l.(i := l.i + 1, skipped := l.skipped + 1);
        } else {
          l := ImportEntry(t, user, m, l.(pc := Resolve));
        }
      }
    }
  }

  // ---------------------------------------------------------------- when the cache is transparent

  function Table(s: Shared): Labels { Labels(s.folders, s.created) }

  /** Lookup or create without any cache. */
  function Plain(cfg: Config, t: Task, b: Labels, i: nat): (Labels, string)
    requires i < |t.mails|
  {
    var m := t.mails[i];
    var key := FolderOf(t, m.folder);
    if SystemLabel(m.folder).Some? then (b, SystemLabel(m.folder).value)
    else if cfg.dryRun && !Mapped(b.folders, key) then (b, "DRYRUN_LABEL_" + Lower(StripSlashes(m.folder)))
    else LookupOrCreate(b, key, LabelName(m.folder), cfg.createLabel(User(t), i), cfg.saveMapping(User(t), i))
  }

  predicate InTable(s: Shared, k: FolderKey)
    requires k in s.cache
  {
    Mapped(s.folders, k) && s.folders[k].labelId == s.cache[k]
  }

  /** Every cached label is the one in the folders table, as in a new importer. */
  ghost predicate CacheAgrees(s: Shared) {
    forall k | k in s.cache :: InTable(s, k)
  }

  /** What runs keep: a cached label that is not in the table is one that was created and not saved. */
  ghost predicate CacheInv(cfg: Config, s: Shared) {
    forall k | k in s.cache :: InTable(s, k) || (!cfg.dryRun && !Mapped(s.folders, k))
  }

  /**
   The request is answered from a cached label that the table does not have.  (The one harmless case
   is a label with the very id INBOX while Google answers with an error, which defaults to INBOX.)
   */
  predicate Stale(cfg: Config, s: Shared, t: Task, i: nat)
    requires i < |t.mails|
  {
    var key := FolderOf(t, t.mails[i].folder);
    && SystemLabel(t.mails[i].folder).None? && key in s.cache && !InTable(s, key)
    && !(s.cache[key] == "INBOX" && cfg.createLabel(User(t), i).None?)
  }

  /** A creation is lookup-or-create on the table, and remembers the new label even if it cannot be saved. */
  lemma CreateFacts(cfg: Config, t: Task, s: Shared, i: nat)
    requires i < |t.mails| && !Mapped(s.folders, FolderOf(t, t.mails[i].folder))
    ensures var (s', labelId) := CreateAt(cfg, t, s, i);
      var key, answer := FolderOf(t, t.mails[i].folder), cfg.createLabel(User(t), i);
      && s'.items == s.items
      && s'.cache == (if answer.Some? then s.cache[key := answer.value] else s.cache)
      && (Table(s'), labelId) == LookupOrCreate(Table(s), key, LabelName(t.mails[i].folder), answer,
                                                cfg.saveMapping(User(t), i))
  {
  }

  lemma ResolveInv(cfg: Config, t: Task, s: Shared, i: nat)
    requires i < |t.mails| && CacheInv(cfg, s)
    ensures CacheInv(cfg, ResolveAt(cfg, t, s, i).0) && ResolveAt(cfg, t, s, i).0.items == s.items
  {
    var key := FolderOf(t, t.mails[i].folder);
    if !Mapped(s.folders, key) { CreateFacts(cfg, t, s, i); }
  }

  /** One request: the two forms agree exactly when it is not stale. */
  lemma OneResolution(cfg: Config, t: Task, s: Shared, i: nat)
    requires i < |t.mails| && CacheInv(cfg, s)
    ensures var (s', labelId) := ResolveAt(cfg, t, s, i);
      (Table(s'), labelId) == Plain(cfg, t, Table(s), i) <==> !Stale(cfg, s, t, i)
  {
    var key, b := FolderOf(t, t.mails[i].folder), Table(s);
    if SystemLabel(t.mails[i].folder).None? {
      if key in s.cache {
        assert (b.created + multiset{key})[key] != b.created[key];
      } else if !Mapped(s.folders, key) {
        CreateFacts(cfg, t, s, i);
      }
    }
  }

  datatype Request = Request(task: Task, position: nat)

  ghost predicate Requests(rs: seq<Request>) {
    forall i | 0 <= i < |rs| :: rs[i].position < |rs[i].task.mails|
  }

  /** The requests resolved one after another with the cache. */
  function Cached(cfg: Config, s: Shared, rs: seq<Request>): (Shared, seq<string>)
    requires Requests(rs)
    decreases |rs|
  {
    if rs == [] then (s, [])
    else
      var (before, labels) := Cached(cfg, s, rs[..|rs| - 1]);
      var (after, labelId) := ResolveAt(cfg, rs[|rs| - 1].task, before, rs[|rs| - 1].position);
      (after, labels + [labelId])
  }

  function Uncached(cfg: Config, b: Labels, rs: seq<Request>): (Labels, seq<string>)
    requires Requests(rs)
    decreases |rs|
  {
    if rs == [] then (b, [])
    else
      var (before, labels) := Uncached(cfg, b, rs[..|rs| - 1]);
      var (after, labelId) := Plain(cfg, rs[|rs| - 1].task, before, rs[|rs| - 1].position);
      (after, labels + [labelId])
  }

  /** After the first `k` requests, labels returned, labels created and folders table are the same in both forms. */
  ghost predicate SameAt(cfg: Config, s: Shared, rs: seq<Request>, k: nat)
    requires Requests(rs) && k <= |rs|
  {
    var (s', labels) := Cached(cfg, s, rs[..k]);
    (Table(s'), labels) == Uncached(cfg, Table(s), rs[..k])
  }

  ghost predicate StaleAt(cfg: Config, s: Shared, rs: seq<Request>, k: nat)
    requires Requests(rs) && k < |rs|
  {
    Stale(cfg, Cached(cfg, s, rs[..k]).0, rs[k].task, rs[k].position)
  }

  lemma {:induction false} CachedInv(cfg: Config, s: Shared, rs: seq<Request>)
    requires Requests(rs) && CacheInv(cfg, s)
    ensures CacheInv(cfg, Cached(cfg, s, rs).0)
    decreases |rs|
  {
    if rs != [] {
      CachedInv(cfg, s, rs[..|rs| - 1]);
      ResolveInv(cfg, rs[|rs| - 1].task, Cached(cfg, s, rs[..|rs| - 1]).0, rs[|rs| - 1].position);
    }
  }

  lemma SameNext(cfg: Config, s: Shared, rs: seq<Request>, k: nat)
    requires Requests(rs) && k < |rs| && CacheInv(cfg, s) && SameAt(cfg, s, rs, k)
    ensures SameAt(cfg, s, rs, k + 1) <==> !StaleAt(cfg, s, rs, k)
  {
    assert rs[..k + 1][..k] == rs[..k];
    CachedInv(cfg, s, rs[..k]);
    var (before, labels) := Cached(cfg, s, rs[..k]);
    OneResolution(cfg, rs[k].task, before, rs[k].position);
    var x := ResolveAt(cfg, rs[k].task, before, rs[k].position).1;
    var y := Plain(cfg, rs[k].task, Table(before), rs[k].position).1;
    assert (labels + [x])[|labels|] == x && (labels + [y])[|labels|] == y;
  }

  lemma {:induction false} SameUntil(cfg: Config, s: Shared, rs: seq<Request>, k: nat)
    requires Requests(rs) && k <= |rs| && CacheInv(cfg, s) && forall i | 0 <= i < k :: !StaleAt(cfg, s, rs, i)
    ensures SameAt(cfg, s, rs, k)
  {
    if k > 0 {
      SameUntil(cfg, s, rs, k - 1);
      SameNext(cfg, s, rs, k - 1);
    }
  }

  /**
   For a new importer and any sequence of resolutions for any users, whatever Google and the
   checkpoint answer: the cached form returns the labels, creates the labels, and leaves the folders
   table, of the form without a cache at every point of the sequence, exactly when no request is
   answered from a cached label that the table does not have.
   */
  lemma CacheIsTransparentExactly(cfg: Config, s: Shared, rs: seq<Request>)
    requires Requests(rs) && CacheAgrees(s)
    ensures (forall k | 0 <= k <= |rs| :: SameAt(cfg, s, rs, k)) <==> (forall k | 0 <= k < |rs| :: !StaleAt(cfg, s, rs, k))
  {
    if forall k | 0 <= k < |rs| :: !StaleAt(cfg, s, rs, k) {
      forall k | 0 <= k <= |rs| ensures SameAt(cfg, s, rs, k) { SameUntil(cfg, s, rs, k); }
    } else {
      var k :| 0 <= k < |rs| && StaleAt(cfg, s, rs, k);
      if SameAt(cfg, s, rs, k) {
        SameNext(cfg, s, rs, k);
        assert !SameAt(cfg, s, rs, k + 1);
      }
    }
  }

  /** Saves succeed and Google never answers with an empty label. */
  ghost predicate Dependable(cfg: Config) {
    && (forall u, i :: cfg.saveMapping(u, i))
    && (forall u, i :: cfg.createLabel(u, i) != Some(""))
  }

  lemma ResolveAgrees(cfg: Config, t: Task, s: Shared, i: nat)
    requires i < |t.mails| && CacheAgrees(s) && (cfg.dryRun || Dependable(cfg))
    ensures CacheAgrees(ResolveAt(cfg, t, s, i).0)
  {
    if !Mapped(s.folders, FolderOf(t, t.mails[i].folder)) {
      CreateFacts(cfg, t, s, i);
      assert Dependable(cfg) ==> cfg.saveMapping(User(t), i) && cfg.createLabel(User(t), i) != Some("");
    }
  }

  lemma {:induction false} CachedAgrees(cfg: Config, s: Shared, rs: seq<Request>)
    requires Requests(rs) && CacheAgrees(s) && (cfg.dryRun || Dependable(cfg))
    ensures CacheAgrees(Cached(cfg, s, rs).0)
    decreases |rs|
  {
    if rs != [] {
      CachedAgrees(cfg, s, rs[..|rs| - 1]);
      ResolveAgrees(cfg, rs[|rs| - 1].task, Cached(cfg, s, rs[..|rs| - 1]).0, rs[|rs| - 1].position);
    }
  }

  /** In a dry run, and in a live run whose saves succeed, the cache is transparent and agrees with the table. */
  lemma CacheIsTransparent(cfg: Config, s: Shared, rs: seq<Request>)
    requires Requests(rs) && CacheAgrees(s) && (cfg.dryRun || Dependable(cfg))
    ensures CacheAgrees(Cached(cfg, s, rs).0) && SameAt(cfg, s, rs, |rs|)
  {
    CachedAgrees(cfg, s, rs);
    forall k | 0 <= k < |rs| ensures !StaleAt(cfg, s, rs, k) { CachedAgrees(cfg, s, rs[..k]); }
    CacheIsTransparentExactly(cfg, s, rs);
  }

  /** Without dependable saves the two forms part: the first failed save is remembered by the cache alone. */
  lemma FailedSaveShowsTheCache(cfg: Config, t: Task, s: Shared, name: string)
    requires |t.mails| == 2 && t.mails[0].folder == t.mails[1].folder && SystemLabel(t.mails[0].folder).None?
    requires CacheAgrees(s) && !Mapped(s.folders, FolderOf(t, t.mails[0].folder))
    requires !cfg.dryRun && cfg.createLabel(User(t), 0) == Some(name) && !cfg.saveMapping(User(t), 0)
    requires name != "INBOX"
    ensures var rs := [Request(t, 0), Request(t, 1)];
      StaleAt(cfg, s, rs, 1) && !SameAt(cfg, s, rs, 2)
  {
    var rs := [Request(t, 0), Request(t, 1)];
    assert rs[..1][..0] == [] && rs[..1] == [Request(t, 0)];
    SameNext(cfg, s, rs, 0);
    assert StaleAt(cfg, s, rs, 1);
    SameNext(cfg, s, rs, 1);
  }

  // ---------------------------------------------------------------- labels created

  /** Labels are created for folders neither cached nor mapped, once each, and are cached from then on. */
  ghost predicate Frugal(s: Shared, s': Shared) {
    && s.cache.Keys <= s'.cache.Keys && Kept(Table(s), Table(s'))
    && forall k | s'.created[k] != s.created[k] ::
         s'.created[k] == s.created[k] + 1 && k !in s.cache && k in s'.cache && !Mapped(s.folders, k)
  }

  lemma CreateFrugal(cfg: Config, t: Task, s: Shared, i: nat)
    requires i < |t.mails|
    requires FolderOf(t, t.mails[i].folder) !in s.cache && !Mapped(s.folders, FolderOf(t, t.mails[i].folder))
    ensures Frugal(s, CreateAt(cfg, t, s, i).0)
  {
    var key := FolderOf(t, t.mails[i].folder);
    CreateFacts(cfg, t, s, i);
    LookupKeeps(Table(s), key, LabelName(t.mails[i].folder), cfg.createLabel(User(t), i), cfg.saveMapping(User(t), i));
  }

  lemma ResolveFrugal(cfg: Config, t: Task, s: Shared, i: nat)
    requires i < |t.mails|
    ensures Frugal(s, ResolveAt(cfg, t, s, i).0)
  {
    var key := FolderOf(t, t.mails[i].folder);
    if key !in s.cache && !Mapped(s.folders, key) { CreateFrugal(cfg, t, s, i); }
  }

  /**
   Whatever fails: over any sequence of resolutions one importer has a folder's label created at
   most once, never for a folder that is cached or mapped, and existing mappings stay.
   */
  lemma {:induction false} CreatedAtMostOnce(cfg: Config, s: Shared, rs: seq<Request>)
    requires Requests(rs)
    ensures Frugal(s, Cached(cfg, s, rs).0)
    decreases |rs|
  {
    if rs != [] {
      CreatedAtMostOnce(cfg, s, rs[..|rs| - 1]);
      ResolveFrugal(cfg, rs[|rs| - 1].task, Cached(cfg, s, rs[..|rs| - 1]).0, rs[|rs| - 1].position);
    }
  }

  // ---------------------------------------------------------------- one import after another

  /** Every entry ends with a SYNCED row: rows get written, and nothing is really imported or every import succeeds. */
  ghost predicate MarksAll(cfg: Config) {
    && (forall u, i :: cfg.saveSynced(u, i))
    && (cfg.dryRun || forall u, i, labelId :: cfg.importMessage(u, i, labelId).Acked?)
  }

  ghost predicate Marked(t: Task, s: Shared, n: nat)
    requires n <= |t.mails|
  {
    forall j | 0 <= j < n :: Synced(s.items, ItemOf(t, t.mails[j]))
  }

  lemma {:induction false} FinishMarks(cfg: Config, t: Task, s: Shared, l: Local)
    requires MarksAll(cfg) && l.i <= |t.mails| && Marked(t, s, l.i) && !l.pc.RecordFailed? && !l.raised
    ensures Marked(t, Finish(cfg, t, s, l).0, |t.mails|)
    decreases Left(t, l)
  {
    if !Done(t, l) {
      StepProgress(cfg, t, s, l);
      FinishStep(cfg, t, s, l);
      var (e, l') := Act(cfg, t, s, l);
      var s' := Update(s, e);
      assert Marked(t, s', l'.i) by {
        assert forall k | Synced(s.items, k) :: Synced(s'.items, k);
        if l'.i > l.i { assert Synced(s'.items, ItemOf(t, t.mails[l.i])); }
      }
      FinishMarks(cfg, t, s', l');
    }
  }

  /** The counters, rows and acceptances of a worker that has dealt with the entries before `l.i`. */
  ghost predicate Counted(cfg: Config, t: Task, s: Shared, l: Local, kept: int) {
    && CountersOk(t, l)
    && KeptOk(cfg, s, l, kept)
    && forall j | 0 <= j < l.i :: ItemOf(t, t.mails[j]) in s.items
  }

  ghost predicate CountersOk(t: Task, l: Local) {
    && l.i <= |t.mails| && (l.i == |t.mails| ==> l.pc.Check?)
    && (!l.raised ==> l.synced + l.skipped + l.failed == l.i)
  }

  /** Counted as synced, or accepted and about to be recorded. */
  function Pending(l: Local): int { l.synced + if l.pc.RecordOk? then 1 else 0 }

  ghost predicate KeptOk(cfg: Config, s: Shared, l: Local, kept: int) {
    !cfg.dryRun ==>
      && |s.accepted| - |s.lost| == kept + Pending(l)
      && (l.raised ==> l.pc.RecordFailed?)
  }

  lemma CountedStep(cfg: Config, t: Task, s: Shared, l: Local, kept: int)
    requires Counted(cfg, t, s, l, kept) && !Done(t, l)
    ensures Counted(cfg, t, Step(cfg, t, s, l).0, Step(cfg, t, s, l).1, kept)
  {
    CountersStep(cfg, t, s, l);
    KeptStep(cfg, t, s, l, kept);
    RowsStep(cfg, t, s, l);
  }

  lemma CountersStep(cfg: Config, t: Task, s: Shared, l: Local)
    requires CountersOk(t, l) && !Done(t, l)
    ensures CountersOk(t, Step(cfg, t, s, l).1)
  {
  }

  lemma KeptStep(cfg: Config, t: Task, s: Shared, l: Local, kept: int)
    requires KeptOk(cfg, s, l, kept) && !Done(t, l)
    ensures KeptOk(cfg, Step(cfg, t, s, l).0, Step(cfg, t, s, l).1, kept)
  {
    if !cfg.dryRun {
      ActKept(cfg, t, s, l);
      UpdateKept(s, Act(cfg, t, s, l).0);
    }
  }

  lemma ActKept(cfg: Config, t: Task, s: Shared, l: Local)
    requires !cfg.dryRun && !Done(t, l)
    ensures var (e, l') := Act(cfg, t, s, l);
      && Pending(l') == Pending(l) + Bit(e.Accept?) - Bit(e.Lose?)
      && (l'.raised ==> l'.pc.RecordFailed?)
  {
  }

  lemma UpdateKept(s: Shared, e: Effect)
    ensures |Update(s, e).accepted| == |s.accepted| + Bit(e.Accept? || e.AcceptLost?)
    ensures |Update(s, e).lost| == |s.lost| + Bit(e.Lose? || e.AcceptLost?)
  {
  }

  /** No row disappears, and a worker that goes on to the next entry leaves a row behind. */
  lemma RowsStep(cfg: Config, t: Task, s: Shared, l: Local)
    requires !Done(t, l)
    ensures var (s', l') := Step(cfg, t, s, l);
      s.items.Keys <= s'.items.Keys && l.i <= l'.i <= l.i + 1 && (l'.i > l.i ==> ItemOf(t, t.mails[l.i]) in s'.items)
  {
    ActRow(cfg, t, s, l);
    RowsGrow(s, Act(cfg, t, s, l).0);
  }

  lemma RowsGrow(s: Shared, e: Effect)
    ensures s.items.Keys <= Update(s, e).items.Keys && (e.PutItem? ==> e.item in Update(s, e).items)
  {
  }

  lemma ActRow(cfg: Config, t: Task, s: Shared, l: Local)
    requires !Done(t, l)
    ensures var (e, l') := Act(cfg, t, s, l);
      && l.i <= l'.i <= l.i + 1
      && (l'.i > l.i ==> ItemOf(t, t.mails[l.i]) in s.items || (e.PutItem? && e.item == ItemOf(t, t.mails[l.i])))
  {
  }

  /**
   At the end of an archive, unless a row could not be written and the exception left the import,
   every entry has a row and was counted once.  A live import counts as synced exactly the messages
   Gmail took and whose row was written, even if it raised.
   */
  lemma {:induction false} FinishCounts(cfg: Config, t: Task, s: Shared, l: Local, kept: int)
    requires Counted(cfg, t, s, l, kept)
    ensures var (s', l') := Finish(cfg, t, s, l);
      && (!l'.raised ==> l'.synced + l'.skipped + l'.failed == |t.mails|
                         && forall m | m in t.mails :: ItemOf(t, m) in s'.items)
      && (!cfg.dryRun ==> |s'.accepted| - |s'.lost| == kept + l'.synced)
    decreases Left(t, l)
  {
    if !Done(t, l) {
      StepProgress(cfg, t, s, l);
      CountedStep(cfg, t, s, l, kept);
      var (s', l') := Step(cfg, t, s, l);
      FinishCounts(cfg, t, s', l', kept);
    }
  }

  lemma {:induction false} FinishSkips(cfg: Config, t: Task, s: Shared, i: nat)
    requires i <= |t.mails| && Marked(t, s, |t.mails|)
    ensures Finish(cfg, t, s, Local(i, Check, 0, i, 0, 0, false)) == (s, Local(|t.mails|, Check, 0, |t.mails|, 0, 0, false))
    decreases |t.mails| - i
  {
    if i < |t.mails| {
      FinishStep(cfg, t, s, Local(i, Check, 0, i, 0, 0, false));
      assert Synced(s.items, ItemOf(t, t.mails[i]));
      FinishSkips(cfg, t, s, i + 1);
    }
  }

  /** A dry run leaves SYNCED rows as they are. */
  lemma {:induction false} DryKeepsSynced(cfg: Config, t: Task, s: Shared, l: Local, k: ItemKey)
    requires cfg.dryRun && !l.pc.RecordFailed? && Synced(s.items, k)
    ensures Synced(Finish(cfg, t, s, l).0.items, k)
    decreases Left(t, l)
  {
    if !Done(t, l) {
      StepProgress(cfg, t, s, l);
      FinishStep(cfg, t, s, l);
      var (e, l') := Act(cfg, t, s, l);
      DryKeepsSynced(cfg, t, Update(s, e), l', k);
    }
  }

  /** A dry run at a new entry: it leaves the rows alone exactly if the entry's row cannot be written. */
  lemma DryEntry(cfg: Config, t: Task, s: Shared, l: Local)
    requires cfg.dryRun && !Done(t, l) && l.pc.Resolve? && !Synced(s.items, ItemOf(t, t.mails[l.i]))
    ensures Finish(cfg, t, s, l).0.items == s.items <==> !cfg.saveSynced(User(t), l.i)
  {
    ResolveRuns(cfg, t, s, l);
    var (s', labelId) := ResolveAt(cfg, t, s, l.i);
    assert s'.items == s.items;
    DeliverRuns(cfg, t, s', l.(pc := Import(labelId)));
    var (s2, l2) := DeliverAt(cfg, t, s', l.(pc := Import(labelId)));
    if cfg.saveSynced(User(t), l.i) { DryKeepsSynced(cfg, t, s2, l2, ItemOf(t, t.mails[l.i])); }
  }

  lemma {:induction false} DryRunFrom(cfg: Config, t: Task, s: Shared, i: nat)
    requires cfg.dryRun && i <= |t.mails| && Marked(t, s, i)
    ensures Finish(cfg, t, s, Local(i, Check, 0, i, 0, 0, false)).0.items == s.items <==> Untouched(cfg, t, s)
    decreases |t.mails| - i
  {
    if i < |t.mails| {
      FinishStep(cfg, t, s, Local(i, Check, 0, i, 0, 0, false));
      if Synced(s.items, ItemOf(t, t.mails[i])) {
        DryRunFrom(cfg, t, s, i + 1);
      } else {
        DryEntry(cfg, t, s, Local(i, Resolve, 0, i, 0, 0, false));
      }
    }
  }

  /** The first entry that is not in the checkpoint, if there is one, cannot be recorded. */
  ghost predicate Untouched(cfg: Config, t: Task, s: Shared) {
    forall n | 0 <= n < |t.mails| && Marked(t, s, n) && !Synced(s.items, ItemOf(t, t.mails[n])) ::
      !cfg.saveSynced(User(t), n)
  }

  /**
   A dry run leaves the item rows as they were exactly if it has no row to write: nothing in the
   archive is new, or the first new entry's row cannot be written and the exception ends the import.
   */
  lemma DryRunKeepsRows(cfg: Config, t: Task, s: Shared)
    requires cfg.dryRun
    ensures Finish(cfg, t, s, START).0.items == s.items <==> Untouched(cfg, t, s)
    ensures MarksAll(cfg) ==> (Finish(cfg, t, s, START).0.items == s.items <==> Marked(t, s, |t.mails|))
  {
    DryRunFrom(cfg, t, s, 0);
    if MarksAll(cfg) {
      FinishMarks(cfg, t, s, START);
    }
  }

  /**
   Importing the same archive again, in whatever mode, skips every entry and changes nothing, when
   the first import was clean.  A dry run counts as clean: it writes SYNCED rows, so the live run
   after it imports nothing at all.
   */
  lemma SecondImportSkipsAll(first: Config, second: Config, t: Task, s: Shared)
    requires MarksAll(first)
    ensures var s' := Finish(first, t, s, START).0;
      Finish(second, t, s', START) == (s', Local(|t.mails|, Check, 0, |t.mails|, 0, 0, false))
  {
    FinishMarks(first, t, s, START);
    FinishSkips(second, t, Finish(first, t, s, START).0, 0);
  }
}
