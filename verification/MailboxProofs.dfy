/** What mailbox streaming guarantees over whole runs and over any sequence of runs. */
module MailboxProofs {
  import opened Prelude
  import opened Checkpoint
  import opened Labels
  import opened Mailbox

  // ---------------------------------------------------------------- statements without effect

  /** Nothing moved but the clock, and perhaps an exception or a crash. */
  ghost predicate Neutral(w: World, w': World) {
    && w' == w.(now := w'.now, halt := w'.halt)
    && w.now <= w'.now
    && (w'.halt.Going? ==> w.halt.Going?)
  }

  lemma {:induction false} TriesNeutral(env: Env, w: World, n: nat)
    ensures Neutral(w, Tries(env, w, n))
    decreases n
  {
    if n > 0 { TriesNeutral(env, Tick(env, Gate(env, w)), n - 1); }
  }

  /** A worker that gets past a gate started going before the cancel. */
  lemma GateFacts(env: Env, w: World)
    ensures Neutral(w, Gate(env, w))
    ensures Gate(env, w).halt.Going? ==> !Due(env.cancelAt, w.now)
  {
  }

  /**
   A retry-wrapped call, books aside: time passes, and if it was started after the cancel it is
   counted as late and does not come back.
   */
  ghost predicate CallFrame(env: Env, w: World, w': World) {
    && w.now <= w'.now
    && w.lateCalls <= w'.lateCalls <= w.lateCalls + 1
    && (w'.lateCalls > w.lateCalls ==> Due(env.cancelAt, w'.now))
    && (w'.halt.Going? ==> w.halt.Going? && w'.lateCalls == w.lateCalls)
  }

  lemma RetriedCallFacts(env: Env, w: World, n: nat)
    ensures var t := RetriedCall(env, w, n);
      CallFrame(env, w, t) && t == w.(now := t.now, halt := t.halt, lateCalls := t.lateCalls)
  {
    var s := StartCall(env, w);
    var t := Tries(env, s, n);
    TriesNeutral(env, s, n);
    GateFacts(env, t);
  }

  lemma FetchCallFacts(env: Env, w: World)
    ensures var f := FetchCall(env, w);
      && CallFrame(env, w, f) && f == w.(now := f.now, halt := f.halt, lateCalls := f.lateCalls)
      && (f.halt.Going? ==> env.fetch(w.now).raw.Some? && env.fetch(w.now).raw.value != [])
  {
    RetriedCallFacts(env, w, env.fetch(w.now).failures);
  }

  lemma ListCallFacts(env: Env, w: World)
    ensures var c, g := ListCall(env, w), Gate(env, w);
      && c == w.(now := c.now, halt := c.halt, lateCalls := c.lateCalls)
      && w.now <= c.now && (c.halt.Going? ==> w.halt.Going?)
      && (if g.halt.Going? then w.lateCalls <= c.lateCalls <= w.lateCalls + 1 else c.lateCalls == w.lateCalls)
      && (c.lateCalls > w.lateCalls ==> Due(env.cancelAt, c.now))
  {
    var g := Gate(env, w);
    RetriedCallFacts(env, g, env.listFailures(g.now));
  }

  // ---------------------------------------------------------------- exactly-once accounting

  /** Copies held by Gmail that are not marked as lost. */
  function Net(b: Books, k: ItemKey): int { b.accepted[k] as int - b.lost[k] as int }

  /** Each message has as many copies, losses aside, as it has SYNCED rows. */
  ghost predicate Accounted(b: Books) {
    forall k: ItemKey | k.entity == EMAIL :: Net(b, k) == Bit(Synced(b.items, k))
  }

  /** The rows are the same, and for message `k` there is one more copy that is not lost, if `one`. */
  ghost predicate Booked(b: Books, b': Books, k: ItemKey, one: bool) {
    && b'.items == b.items && LabelsOf(b') == LabelsOf(b)
    && forall j :: Net(b', j) == Net(b, j) + Bit(one && j == k)
  }

  lemma {:induction false} ImportTriesFacts(env: Env, w: World, k: ItemKey, failures: seq<bool>)
    ensures var t := ImportTries(env, w, k, failures);
      && t == w.(now := t.now, halt := t.halt, books := t.books)
      && w.now <= t.now && (t.halt.Going? ==> w.halt.Going?)
      && Booked(w.books, t.books, k, false)
    decreases |failures|
  {
    if failures != [] {
      var t := Tick(env, Gate(env, w));
      var t' := if t.halt.Going? && failures[0] then Lose(Accept(t, k), k) else t;
      assert Booked(t.books, t'.books, k, false);
      ImportTriesFacts(env, t', k, failures[1..]);
    }
  }

  lemma ImportCallFacts(env: Env, w: World, k: ItemKey)
    ensures var i := ImportCall(env, w, k);
      && CallFrame(env, w, i)
      && i == w.(now := i.now, halt := i.halt, lateCalls := i.lateCalls, books := i.books)
      && Booked(w.books, i.books, k, i.halt.Going?)
  {
    var imp, s := env.import_(w.now), StartCall(env, w);
    ImportTriesFacts(env, s, k, imp.failures);
    var t := ImportTries(env, s, k, imp.failures);
    GateFacts(env, t);
  }

  lemma WriteRowFacts(env: Env, w: World, k: ItemKey, row: ItemRow)
    ensures var t := WriteRow(env, w, k, row);
      && t == w.(now := t.now, halt := t.halt, lateRows := t.lateRows, books := t.books)
      && w.now <= t.now && (t.halt.Going? ==> w.halt.Going?)
      && t.books == (if t.halt.Going? then w.books.(items := w.books.items[k := row]) else w.books)
      && w.lateRows <= t.lateRows <= w.lateRows + 1
      && (t.lateRows > w.lateRows ==> t.halt.Going? && Due(env.cancelAt, t.now))
  {
  }

  /** A message's row and copies after a step: other rows are untouched, and books stay in step. */
  ghost predicate InStep(b: Books, b': Books, k: ItemKey) {
    && b'.items - {k} == b.items - {k} && LabelsOf(b') == LabelsOf(b)
    && (Synced(b.items, k) ==> b' == b)
    && forall j :: Net(b', j) - Net(b, j) == Bit(Synced(b'.items, j)) - Bit(Synced(b.items, j))
  }

  lemma RecordFacts(env: Env, w0: Books, w: World, k: ItemKey, row: ItemRow, size: nat)
    requires w.halt.Going? && Booked(w0, w.books, k, true) && !Synced(w0.items, k) && row.status == SYNCED
    ensures var r := Record(env, w, k, row, size);
      && InStep(w0, r.books, k) && Synced(r.books.items, k) == r.halt.Going?
      && r == w.(now := r.now, halt := r.halt, lateRows := r.lateRows, books := r.books, tally := r.tally)
      && w.now <= r.now && w.lateRows <= r.lateRows <= w.lateRows + 1
      && (r.lateRows > w.lateRows ==> r.halt.Going? && Due(env.cancelAt, r.now))
      && r.tally.skipped == w.tally.skipped && r.tally.failed == w.tally.failed
      && r.tally.synced == w.tally.synced + Bit(r.halt.Going?)
  {
    WriteRowFacts(env, w, k, row);
    var t, r := WriteRow(env, w, k, row), Record(env, w, k, row, size);
    forall j ensures Net(r.books, j) - Net(w0, j) == Bit(Synced(r.books.items, j)) - Bit(Synced(w0.items, j)) {
      assert Net(w.books, j) == Net(w0, j) + Bit(j == k);
      if !t.halt.Going? { assert Net(r.books, j) == Net(w.books, j) - Bit(j == k); }
    }
    assert r.books.items - {k} == w0.items - {k};
  }

  /** At most one late call and one late row since `w`, and a late one means the cancel has happened. */
  ghost predicate LateFrame(env: Env, w: World, w': World) {
    && w.now <= w'.now && w'.lateLabels == w.lateLabels
    && w.lateCalls <= w'.lateCalls <= w.lateCalls + 1
    && w.lateRows <= w'.lateRows <= w.lateRows + 1
    && (w'.lateCalls > w.lateCalls || w'.lateRows > w.lateRows ==> Due(env.cancelAt, w'.now))
  }

  /** The try block books one copy and one SYNCED row together, or neither. */
  lemma StreamFacts(env: Env, w: World, e: Entry)
    requires w.halt.Going? && !Synced(w.books.items, Key(env, e))
    ensures var s, k := Stream(env, w, e), Key(env, e);
      && s.visited == w.visited && LateFrame(env, w, s)
      && (!s.halt.Going? ==> s.lateRows == w.lateRows)
      && InStep(w.books, s.books, k) && Synced(s.books.items, k) == s.halt.Going?
      && s.tally.skipped == w.tally.skipped && s.tally.failed == w.tally.failed
      && s.tally.synced == w.tally.synced + Bit(s.halt.Going?)
  {
    var k := Key(env, e);
    FetchCallFacts(env, w);
    var f := FetchCall(env, w);
    if f.halt.Going? {
      ImportCallFacts(env, f, k);
      var i := ImportCall(env, f, k);
      if i.halt.Going? {
        var raw := env.fetch(w.now).raw.value;
        var row := ItemRow(SYNCED, env.import_(f.now).destination, Some(env.digest(raw)), None);
        RecordFacts(env, w.books, i, k, row, |raw|);
        assert Stream(env, w, e) == Record(env, i, k, row, |raw|);
      }
    }
  }

  function Sum(t: Tally): nat { t.synced + t.skipped + t.failed }

  /** One visit: one more message visited, and unless the run stops in the middle, counted once. */
  ghost predicate Visit(env: Env, w: World, w': World, e: Entry) {
    && w'.visited == w.visited + [e]
    && InStep(w.books, w'.books, Key(env, e))
    && LateFrame(env, w, w')
    && (w'.halt.Going? ==> Sum(w'.tally) == Sum(w.tally) + 1)
    && w'.tally.skipped == w.tally.skipped + Bit(Synced(w.books.items, Key(env, e)))
    && w'.tally.synced <= w.tally.synced + Bit(!Synced(w.books.items, Key(env, e)))
  }

  lemma MessageVisit(env: Env, w: World, e: Entry, dry: bool)
    requires Gate(env, w).halt.Going?
    ensures Visit(env, w, Message(env, w, e, dry), e)
    ensures dry ==> Message(env, w, e, dry).books == w.books && Message(env, w, e, dry).tally.failed == w.tally.failed
  {
    GateFacts(env, w);
    var k, g := Key(env, e), Gate(env, w);
    var v := g.(visited := g.visited + [e]);
    if Synced(v.books.items, k) || dry {
    } else if e.size > MAX_MESSAGE_SIZE {
      OversizeVisit(env, v, k);
    } else {
      StreamedVisit(env, v, e);
      assert Message(env, w, e, dry) == Handle(env, Stream(env, v, e), k);
    }
  }

  lemma StreamedVisit(env: Env, v: World, e: Entry)
    requires v.halt.Going? && !Synced(v.books.items, Key(env, e))
    ensures var h := Handle(env, Stream(env, v, e), Key(env, e));
      && h.visited == v.visited && LateFrame(env, v, h) && InStep(v.books, h.books, Key(env, e))
      && (h.halt.Going? ==> Sum(h.tally) == Sum(v.tally) + 1)
      && h.tally.skipped == v.tally.skipped && h.tally.synced <= v.tally.synced + 1
  {
    StreamFacts(env, v, e);
    HandleVisit(env, v, Stream(env, v, e), Key(env, e));
  }

  lemma OversizeVisit(env: Env, w: World, k: ItemKey)
    requires w.halt.Going? && !Synced(w.books.items, k)
    ensures var o := Oversize(env, w, k);
      && o.visited == w.visited && LateFrame(env, w, o) && InStep(w.books, o.books, k)
      && o.tally == w.tally.(failed := o.tally.failed)
      && (o.halt.Going? ==> o.tally.failed == w.tally.failed + 1)
  {
  }

  lemma HandleVisit(env: Env, w: World, s: World, k: ItemKey)
    requires LateFrame(env, w, s) && (!s.halt.Going? ==> s.lateRows == w.lateRows)
    requires InStep(w.books, s.books, k) && Synced(s.books.items, k) == s.halt.Going?
    ensures var h := Handle(env, s, k);
      && h.visited == s.visited && LateFrame(env, w, h) && InStep(w.books, h.books, k)
      && h.tally == s.tally.(failed := h.tally.failed)
      && (h.halt.Going? ==> h.tally.failed == s.tally.failed + Bit(!s.halt.Going?))
      && (s.halt.Going? ==> h == s)
  {
  }

  /**
   The row a live visit leaves for a message that had none.  SYNCED goes with the digest and the
   length of the very bytes that were fetched for it, and with Gmail's own id; too large a message
   is never fetched.
   */
  lemma MessageRow(env: Env, w: World, e: Entry)
    requires Gate(env, w).halt.Going? && !Synced(w.books.items, Key(env, e))
    requires Message(env, w, e, false).halt.Going?
    ensures var r, k, at := Message(env, w, e, false), Key(env, e), Gate(env, w).now;
      && k in r.books.items
      && (r.books.items[k].status == FAILED_SIZE_EXCEEDED <==> e.size > 26214400)
      && (r.books.items[k].status == SYNCED ==>
            && env.fetch(at).raw.Some? && env.fetch(at).raw.value != []
            && r.books.items[k].checksum == Some(env.digest(env.fetch(at).raw.value))
            && r.books.items[k].error.None?
            && (exists t :: env.import_(t).acked && r.books.items[k].destination == env.import_(t).destination)
            && r.tally == w.tally.(synced := w.tally.synced + 1, bytes := w.tally.bytes + |env.fetch(at).raw.value|))
      && (r.books.items[k].status != SYNCED ==>
            && r.books.items[k].error.Some? && r.books.items[k].checksum.None?
            && r.tally == w.tally.(failed := w.tally.failed + 1))
  {
    GateFacts(env, w);
    var g, k := Gate(env, w), Key(env, e);
    var v := g.(visited := g.visited + [e]);
    if e.size > MAX_MESSAGE_SIZE {
      WriteRowFacts(env, v, k, ItemRow(FAILED_SIZE_EXCEEDED, None, None, Some("Message size exceeds 25MB limit")));
    } else {
      StreamRow(env, v, e);
      assert Message(env, w, e, false) == Handle(env, Stream(env, v, e), k);
    }
  }

  /** What the try and the except block leave behind. */
  lemma StreamRow(env: Env, w: World, e: Entry)
    requires w.halt.Going? && !Synced(w.books.items, Key(env, e))
    ensures var s, k, raw := Stream(env, w, e), Key(env, e), env.fetch(w.now).raw;
      if s.halt.Going? then
        && raw.Some? && raw.value != [] && k in s.books.items
        && s.books.items[k].status == SYNCED && s.books.items[k].error.None?
        && (exists t :: env.import_(t).acked && s.books.items[k].destination == env.import_(t).destination)
        && s.books.items[k].checksum == Some(env.digest(raw.value))
        && s.tally == w.tally.(synced := w.tally.synced + 1, bytes := w.tally.bytes + |raw.value|)
      else s.tally == w.tally
  {
    var k := Key(env, e);
    FetchCallFacts(env, w);
    var f := FetchCall(env, w);
    if f.halt.Going? {
      ImportCallFacts(env, f, k);
      var i := ImportCall(env, f, k);
      if i.halt.Going? {
        var raw := env.fetch(w.now).raw.value;
        var row := ItemRow(SYNCED, env.import_(f.now).destination, Some(env.digest(raw)), None);
        WriteRowFacts(env, i, k, row);
        assert Stream(env, w, e) == Record(env, i, k, row, |raw|);
      }
    }
  }

  /** A message at a closed gate changes nothing but the clock. */
  lemma MessageStopped(env: Env, w: World, e: Entry, dry: bool)
    requires !Gate(env, w).halt.Going?
    ensures Neutral(w, Message(env, w, e, dry)) && !Message(env, w, e, dry).halt.Going?
  {
  }

  /** What every operation keeps: the books, the count of visits, and the bound after a cancel. */
  ghost predicate Inv(env: Env, w: World) {
    && Accounted(w.books)
    && (w.halt.Going? ==> Sum(w.tally) == |w.visited|)
    && w.lateCalls <= 1 && w.lateRows <= 1
    && (w.lateCalls + w.lateRows > 0 ==> Due(env.cancelAt, w.now))
  }

  lemma ApplyKeepsInv(env: Env, w: World, op: Op, dry: bool)
    requires Inv(env, w)
    ensures Inv(env, Apply(env, w, op, dry))
  {
    GateFacts(env, w);
    match op
    case AtGate =>
    case AList => ListCallFacts(env, w);
    case AMessage(e) =>
      if Gate(env, w).halt.Going? {
        MessageVisit(env, w, e, dry);
      } else {
        MessageStopped(env, w, e, dry);
      }
  }

  lemma {:induction false} ExecKeepsInv(env: Env, w: World, ops: seq<Op>, dry: bool)
    requires Inv(env, w)
    ensures Inv(env, Exec(env, w, ops, dry))
    decreases |ops|
  {
    if ops != [] {
      ApplyKeepsInv(env, w, ops[0], dry);
      ExecKeepsInv(env, Apply(env, w, ops[0], dry), ops[1..], dry);
    }
  }

  // ---------------------------------------------------------------- the labels

  /** Labelling touches the folders table and the labels created, and in a dry run nothing. */
  ghost predicate LabelFrame(env: Env, w: World, w': World, dry: bool) {
    && w' == w.(now := w'.now, halt := w'.halt, lateLabels := w'.lateLabels,
                books := w.books.(folders := w'.books.folders, created := w'.books.created))
    && (w'.lateLabels != w.lateLabels ==> Due(env.cancelAt, w'.now))
    && w.now <= w'.now && (w'.halt.Going? ==> w.halt.Going?)
    && Kept(LabelsOf(w.books), LabelsOf(w'.books))
    && (dry ==> w' == w)
    && (w.halt.Going? && env.crashAt.None? ==> w'.halt.Going?)
  }

  /** Labels get ids, rows get written, and the process does not die in between. */
  ghost predicate SavesLabels(env: Env) {
    env.crashAt.None? && (forall t :: env.saveMapping(t)) && forall t :: env.ensureLabel(t) != Some("")
  }

  lemma LabelFolderFacts(env: Env, w: World, f: MailFolder, dry: bool)
    ensures var w' := LabelFolder(env, w, f, dry).0;
      LabelFrame(env, w, w', dry) && (SavesLabels(env) ==> CreatedOnce(LabelsOf(w.books), LabelsOf(w'.books)))
  {
    var asked := Tick(env, w);
    var saved := Tick(env, asked).halt.Going? && env.saveMapping(asked.now);
    LookupKeeps(LabelsOf(w.books), FolderKey(Norm(env.email), f.id), f.name, env.ensureLabel(w.now), saved);
  }

  lemma {:induction false} LabelFoldersFacts(env: Env, w: World, folders: seq<MailFolder>, dry: bool)
    ensures var w' := LabelFolders(env, w, folders, dry).0;
      LabelFrame(env, w, w', dry) && (SavesLabels(env) ==> CreatedOnce(LabelsOf(w.books), LabelsOf(w'.books)))
  {
    if folders != [] {
      var w' := LabelFolders(env, w, folders[..|folders| - 1], dry).0;
      LabelFoldersFacts(env, w, folders[..|folders| - 1], dry);
      LabelFolderFacts(env, w', folders[|folders| - 1], dry);
    }
  }

  lemma {:induction false} ExecKeepsLabels(env: Env, w: World, ops: seq<Op>, dry: bool)
    ensures var r := Exec(env, w, ops, dry);
      LabelsOf(r.books) == LabelsOf(w.books) && r.lateLabels == w.lateLabels && w.now <= r.now
    decreases |ops|
  {
    if ops != [] {
      GateFacts(env, w);
      match ops[0] {
        case AtGate =>
        case AList => ListCallFacts(env, w);
        case AMessage(e) => if Gate(env, w).halt.Going? { MessageVisit(env, w, e, dry); }
      }
      ExecKeepsLabels(env, Apply(env, w, ops[0], dry), ops[1..], dry);
    }
  }

  lemma RunLabels(env: Env, w: World, sources: seq<seq<Entry>>, dry: bool)
    ensures var b, b' := LabelsOf(w.books), LabelsOf(Run(env, w, sources, dry).books);
      Kept(b, b') && (SavesLabels(env) ==> CreatedOnce(b, b'))
    ensures var l, r := Labelled(env, w, dry), Run(env, w, sources, dry);
      && w.now <= l.now <= r.now && r.lateLabels == l.lateLabels
      && (l.lateLabels > 0 ==> Due(env.cancelAt, l.now))
  {
    LabelFoldersFacts(env, Fresh(w), env.mailFolders, dry);
    var ops := FoldersOps(env, Labelled(env, w, dry), sources, 0, dry);
    ExecKeepsLabels(env, Labelled(env, w, dry), ops, dry);
  }

  lemma RunInv(env: Env, w: World, sources: seq<seq<Entry>>, dry: bool)
    requires Accounted(w.books)
    ensures Inv(env, Run(env, w, sources, dry))
  {
    LabelFoldersFacts(env, Fresh(w), env.mailFolders, dry);
    var ops := FoldersOps(env, Labelled(env, w, dry), sources, 0, dry);
    ExecKeepsInv(env, Labelled(env, w, dry), ops, dry);
  }

  datatype Job = Job(env: Env, sources: seq<seq<Entry>>, dry: bool)

  /** Any number of runs one after the other, each ended by completion, cancel, exception or crash. */
  function Replay(w: World, jobs: seq<Job>): World
    decreases |jobs|
  {
    if jobs == [] then w
    else
      var j := jobs[|jobs| - 1];
      Run(j.env, Replay(w, jobs[..|jobs| - 1]), j.sources, j.dry)
  }

  /**
   After any sequence of runs, for every message: the copies Gmail holds are one if its row is
   SYNCED, plus the acceptances whose acknowledgement or commit was lost.  Without losses there is
   never a second copy, and there is a copy exactly when the row says so.
   */
  lemma {:induction false} ExactlyOnce(w: World, jobs: seq<Job>)
    requires Accounted(w.books)
    ensures Accounted(Replay(w, jobs).books)
    ensures forall k: ItemKey | k.entity == EMAIL && Replay(w, jobs).books.lost[k] == 0 ::
              Replay(w, jobs).books.accepted[k] as int == Bit(Synced(Replay(w, jobs).books.items, k))
    decreases |jobs|
  {
    if jobs != [] {
      var j := jobs[|jobs| - 1];
      ExactlyOnce(w, jobs[..|jobs| - 1]);
      RunInv(j.env, Replay(w, jobs[..|jobs| - 1]), j.sources, j.dry);
    }
    var end := Replay(w, jobs).books;
    assert forall k: ItemKey | k.entity == EMAIL :: Net(end, k) == Bit(Synced(end.items, k));
  }

  /**
   Over any sequence of runs, however they end: a folder with a saved mapping keeps it and its label
   is never created again.  If labels can be saved, each folder's label is created once.
   */
  lemma {:induction false} LabelsCreatedOnce(w: World, jobs: seq<Job>)
    ensures Kept(LabelsOf(w.books), LabelsOf(Replay(w, jobs).books))
    ensures (forall i | 0 <= i < |jobs| :: SavesLabels(jobs[i].env)) ==>
              CreatedOnce(LabelsOf(w.books), LabelsOf(Replay(w, jobs).books))
    decreases |jobs|
  {
    if jobs != [] {
      var j := jobs[|jobs| - 1];
      LabelsCreatedOnce(w, jobs[..|jobs| - 1]);
      RunLabels(j.env, Replay(w, jobs[..|jobs| - 1]), j.sources, j.dry);
    }
  }

  /** Labelling more folders leaves the labels of the first ones as they are. */
  lemma {:induction false} LabelsPrefix(env: Env, w: World, folders: seq<MailFolder>, j: nat, dry: bool)
    requires j <= |folders|
    ensures var first, whole := LabelFolders(env, w, folders[..j], dry).1, LabelFolders(env, w, folders, dry).1;
      |whole| == |folders| && first == whole[..j]
    decreases |folders|
  {
    if j == |folders| {
      assert folders[..j] == folders;
      if folders != [] { LabelsPrefix(env, w, folders[..j - 1], j - 1, dry); }
    } else {
      assert folders[..|folders| - 1][..j] == folders[..j];
      LabelsPrefix(env, w, folders[..|folders| - 1], j, dry);
    }
  }

  lemma LabelKeeps(env: Env, w: World, f: MailFolder, dry: bool)
    ensures Kept(LabelsOf(w.books), LabelsOf(LabelFolder(env, w, f, dry).0.books))
  {
    LabelFolderFacts(env, w, f, dry);
  }

  lemma KeptTrans(a: Labels, b: Labels, c: Labels)
    requires Kept(a, b) && Kept(b, c)
    ensures Kept(a, c)
  {
  }

  /** And it keeps their mappings. */
  lemma {:induction false} MappingsKept(env: Env, w: World, folders: seq<MailFolder>, j: nat, dry: bool)
    requires j <= |folders|
    ensures var first, whole := LabelFolders(env, w, folders[..j], dry).0, LabelFolders(env, w, folders, dry).0;
      Kept(LabelsOf(first.books), LabelsOf(whole.books))
    decreases |folders|
  {
    if j == |folders| {
      assert folders[..j] == folders;
    } else {
      var init, last := folders[..|folders| - 1], folders[|folders| - 1];
      assert init[..j] == folders[..j];
      MappingsKept(env, w, init, j, dry);
      var before := LabelFolders(env, w, init, dry).0;
      LabelKeeps(env, before, last, dry);
      assert LabelFolders(env, w, folders, dry).0 == LabelFolder(env, before, last, dry).0;
      KeptTrans(LabelsOf(LabelFolders(env, w, folders[..j], dry).0.books), LabelsOf(before.books),
                LabelsOf(LabelFolder(env, before, last, dry).0.books));
    }
  }

  lemma LabelNext(env: Env, w: World, folders: seq<MailFolder>, j: nat, dry: bool)
    requires j < |folders|
    ensures var before, next := LabelFolders(env, w, folders[..j], dry), LabelFolders(env, w, folders[..j + 1], dry);
      var at := LabelFolder(env, before.0, folders[j], dry);
      next == (at.0, before.1 + [at.1]) && |before.1| == j
  {
    assert folders[..j + 1][..j] == folders[..j];
    LabelsPrefix(env, w, folders[..j], j, dry);
  }

  /** The label of folder `j` is decided by what the folders before it have left; the folders after it keep it. */
  lemma LabelAt(env: Env, w: World, folders: seq<MailFolder>, j: nat, dry: bool)
    requires j < |folders|
    ensures var before, whole := LabelFolders(env, w, folders[..j], dry).0, LabelFolders(env, w, folders, dry);
      var at := LabelFolder(env, before, folders[j], dry);
      && |whole.1| == |folders| && whole.1[j] == at.1
      && Kept(LabelsOf(at.0.books), LabelsOf(whole.0.books))
  {
    LabelNext(env, w, folders, j, dry);
    LabelsPrefix(env, w, folders, j + 1, dry);
    MappingsKept(env, w, folders, j + 1, dry);
  }

  /** The folders with a label of Gmail's own, under any spelling of case and with any blanks around. */
  predicate SystemLabel(name: string, labelId: string) {
    var n := Norm(name);
    || (n == "inbox" && labelId == "INBOX")
    || (n in {"sent", "sent items"} && labelId == "SENT")
    || (n == "drafts" && labelId == "DRAFT")
    || (n in {"trash", "deleted items"} && labelId == "TRASH")
    || (n in {"spam", "junk"} && labelId == "SPAM")
    || (n == "starred" && labelId == "STARRED")
    || (n == "important" && labelId == "IMPORTANT")
  }

  lemma SystemTable(name: string, labelId: string)
    ensures SystemLabel(name, labelId) <==> Norm(name) in SYSTEM_FOLDERS && SYSTEM_FOLDERS[Norm(name)] == labelId
  {
  }

  /**
   The label a folder gets and the labels created for it, case by case: Gmail's own label; in a dry run a
   made-up one; the one in the table; Google's answer if it could be saved; and the inbox after an error
   of Google or of the table.
   */
  ghost predicate GivenLabel(env: Env, before: World, f: MailFolder, dry: bool, given: string, made: multiset<FolderKey>) {
    var k, asked := FolderKey(Norm(env.email), f.id), env.ensureLabel(before.now);
    if exists l :: SystemLabel(f.name, l) then SystemLabel(f.name, given) && made == multiset{}
    else if dry then given == "LABEL_" + f.name && made == multiset{}
    else if k in before.books.folders && before.books.folders[k].labelId != "" then
      given == before.books.folders[k].labelId && made == multiset{}
    else if asked.None? then given == "INBOX" && made == multiset{}
    else given == (if env.saveMapping(before.now + 1) then asked.value else "INBOX") && made == multiset{k}
  }

  lemma OneLabel(env: Env, w: World, f: MailFolder, dry: bool)
    requires w.halt.Going? && env.crashAt.None?
    ensures var (after, given) := LabelFolder(env, w, f, dry);
      GivenLabel(env, w, f, dry, given, after.books.created - w.books.created)
  {
    var (after, given) := LabelFolder(env, w, f, dry);
    if l :| SystemLabel(f.name, l) {
      SystemTable(f.name, l);
    } else if Norm(f.name) in SYSTEM_FOLDERS {
      SystemTable(f.name, SYSTEM_FOLDERS[Norm(f.name)]);
    } else if !dry {
      MadeLabel(env, w, f);
    }
  }

  lemma MadeLabel(env: Env, w: World, f: MailFolder)
    requires w.halt.Going? && env.crashAt.None? && Norm(f.name) !in SYSTEM_FOLDERS
    ensures var (after, given) := LabelFolder(env, w, f, false);
      var k, asked := FolderKey(Norm(env.email), f.id), env.ensureLabel(w.now);
      if k in w.books.folders && w.books.folders[k].labelId != "" then
        given == w.books.folders[k].labelId && after.books.created == w.books.created
      else if asked.None? then given == "INBOX" && after.books.created == w.books.created
      else
        && given == (if env.saveMapping(w.now + 1) then asked.value else "INBOX")
        && after.books.created == w.books.created + multiset{k}
  {
  }

  /** The label of folder `j` of a live or dry run, given what the folders before it have left. */
  lemma FolderLabel(env: Env, w: World, folders: seq<MailFolder>, j: nat, dry: bool)
    requires j < |folders| && w.halt.Going? && env.crashAt.None?
    ensures var before, after := LabelFolders(env, w, folders[..j], dry).0, LabelFolders(env, w, folders[..j + 1], dry).0;
      var labels := LabelFolders(env, w, folders, dry).1;
      && |labels| == |folders|
      && GivenLabel(env, before, folders[j], dry, labels[j], after.books.created - before.books.created)
  {
    LabelAt(env, w, folders, j, dry);
    LabelFoldersFacts(env, w, folders[..j], dry);
    var before := LabelFolders(env, w, folders[..j], dry).0;
    LabelNext(env, w, folders, j, dry);
    OneLabel(env, before, folders[j], dry);
  }

  /** In a live run folder `i` has no label yet, and Google's answer for it is saved. */
  ghost predicate Saves(env: Env, w: World, i: nat, answer: string) {
    && i < |env.mailFolders| && answer != "" && Norm(env.mailFolders[i].name) !in SYSTEM_FOLDERS
    && var before := LabelFolders(env, Fresh(w), env.mailFolders[..i], false).0;
       && !Mapped(before.books.folders, FolderKey(Norm(env.email), env.mailFolders[i].id))
       && before.halt.Going? && !Due(env.crashAt, before.now) && !Due(env.crashAt, before.now + 1)
       && env.ensureLabel(before.now) == Some(answer) && env.saveMapping(before.now + 1)
  }

  /** A folder whose label is saved has that label at the end of the run, and after any further runs. */
  lemma SavedIsMapped(env: Env, w: World, sources: seq<seq<Entry>>, i: nat, answer: string, jobs: seq<Job>)
    requires Saves(env, w, i, answer)
    ensures var k, folders := FolderKey(Norm(env.email), env.mailFolders[i].id),
                              Replay(Run(env, w, sources, false), jobs).books.folders;
      k in folders && folders[k].labelId == answer
  {
    var l := Labelled(env, w, false);
    LabelAt(env, Fresh(w), env.mailFolders, i, false);
    var before := LabelFolders(env, Fresh(w), env.mailFolders[..i], false).0;
    var k := FolderKey(Norm(env.email), env.mailFolders[i].id);
    var at := LabelFolder(env, before, env.mailFolders[i], false).0;
    assert at.books.folders[k].labelId == answer;
    var ops := FoldersOps(env, l, sources, 0, false);
    ExecKeepsLabels(env, l, ops, false);
    LabelsCreatedOnce(Run(env, w, sources, false), jobs);
    assert Mapped(l.books.folders, k) && Mapped(Run(env, w, sources, false).books.folders, k);
  }

  /**
   Google's first answer for a folder sticks once it is saved: whatever runs come in between, every
   later live run that is not cut short gives the folder that label.  The client answers an error of
   its own with the id INBOX; so a folder's messages go to the inbox for good exactly if that was the
   answer.
   */
  lemma SavedLabelSticks(env: Env, w: World, sources: seq<seq<Entry>>, i: nat, answer: string, jobs: seq<Job>,
                         later: Env, j: nat)
    requires Saves(env, w, i, answer)
    requires j < |later.mailFolders| && later.crashAt.None? && Norm(later.email) == Norm(env.email)
    requires later.mailFolders[j].id == env.mailFolders[i].id && Norm(later.mailFolders[j].name) !in SYSTEM_FOLDERS
    ensures var w' := Replay(Run(env, w, sources, false), jobs);
      var (l, labels) := LabelFolders(later, Fresh(w'), later.mailFolders, false);
      && |labels| == |later.mailFolders| && labels[j] == answer
      && l.books.created[FolderKey(Norm(env.email), env.mailFolders[i].id)] ==
         w'.books.created[FolderKey(Norm(env.email), env.mailFolders[i].id)]
  {
    var w' := Replay(Run(env, w, sources, false), jobs);
    SavedIsMapped(env, w, sources, i, answer, jobs);
    LabelAt(later, Fresh(w'), later.mailFolders, j, false);
    LabelFoldersFacts(later, Fresh(w'), later.mailFolders, false);
    LabelFoldersFacts(later, Fresh(w'), later.mailFolders[..j], false);
    assert Mapped(Fresh(w').books.folders, FolderKey(Norm(env.email), env.mailFolders[i].id));
  }

  /**
   Whatever the worker was doing when the cancel came, it starts at most one more retry-wrapped
   call and writes at most one more item row.
   */
  lemma AfterCancel(env: Env, w: World, sources: seq<seq<Entry>>, dry: bool)
    requires Accounted(w.books)
    ensures Run(env, w, sources, dry).lateCalls <= 1
    ensures Run(env, w, sources, dry).lateRows <= 1
  {
    RunInv(env, w, sources, dry);
  }
}
