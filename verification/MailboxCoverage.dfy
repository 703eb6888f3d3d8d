/** Which messages a run reaches, what a clean run leaves behind, and what a dry run predicts. */
module MailboxCoverage {
  import opened Prelude
  import opened Checkpoint
  import opened Mailbox
  import opened MailboxProofs

  // ---------------------------------------------------------------- the page loop against its source

  /** No entry without an id is followed, on a later page, by one with an id. */
  ghost predicate NoEarlyStop(source: seq<Entry>) {
    forall i, j | 0 <= i < j < |source| && i / LIMIT < j / LIMIT && source[i].id == "" :: source[j].id == ""
  }

  lemma {:induction false} WithIdsAppend(a: seq<Entry>, b: seq<Entry>)
    ensures WithIds(a + b) == WithIds(a) + WithIds(b)
  {
    if a == [] {
      assert a + b == b;
    } else {
      assert (a + b)[1..] == a[1..] + b;
      WithIdsAppend(a[1..], b);
    }
  }

  lemma {:induction false} WithIdsAll(entries: seq<Entry>)
    requires forall e | e in entries :: e.id != ""
    ensures WithIds(entries) == entries
  {
    if entries != [] {
      assert entries[0] in entries && forall e :: e in entries[1..] ==> e in entries;
      WithIdsAll(entries[1..]);
    }
  }

  /** Dropping a full first page shifts the condition to the rest. */
  lemma ShiftPage(source: seq<Entry>)
    requires |source| > LIMIT && forall e | e in source[..LIMIT] :: e.id != ""
    ensures NoEarlyStop(source) <==> NoEarlyStop(source[LIMIT..])
  {
  }

  /** A short first page ends the loop; that is right only if nothing follows. */
  lemma ShortPage(source: seq<Entry>)
    requires |source| > LIMIT && exists e | e in source[..LIMIT] :: e.id == ""
    ensures NoEarlyStop(source) <==> forall e | e in source[LIMIT..] :: e.id == ""
  {
  }

  /**
   The page loop hands out every message of the folder that has an id, once and in order, exactly
   when no entry without an id is followed on a later page by one with an id.
   */
  lemma {:induction false} VisitsEverything(source: seq<Entry>)
    ensures Visits(source) == WithIds(source) <==> NoEarlyStop(source)
    decreases |source|
  {
    if |source| <= LIMIT {
      assert forall i, j | 0 <= i < j < |source| :: i / LIMIT == 0 == j / LIMIT || j == LIMIT;
    } else {
      var page, rest := source[..LIMIT], source[LIMIT..];
      assert page + rest == source;
      WithIdsAppend(page, rest);
      WithIdsShort(page);
      WithIdsShort(rest);
      if |WithIds(page)| < LIMIT {
        ShortPage(source);
        assert WithIds(source)[..|WithIds(page)|] == WithIds(page);
      } else {
        WithIdsAll(page);
        ShiftPage(source);
        VisitsEverything(rest);
        assert Visits(source)[LIMIT..] == Visits(rest) && WithIds(source)[LIMIT..] == WithIds(rest);
      }
    }
  }

  /** An entry without an id on the first page hides everything from the second page on. */
  lemma DroppedEntryHidesLaterPages()
    ensures var source := [Entry("", 1)] + seq(99, _ => Entry("m", 1)) + [Entry("z", 1)];
      Entry("z", 1) == source[100] && Entry("z", 1) !in Visits(source)
  {
    var first := [Entry("", 1)] + seq(99, _ => Entry("m", 1));
    var source := first + [Entry("z", 1)];
    assert source[..LIMIT] == first && |source| == LIMIT + 1;
    WithIdsShort(first);
    assert first[0].id == "" && first[0] in first;
    assert |WithIds(first)| < LIMIT && Visits(source) == WithIds(first);
    WithIdsAmong(first, Entry("z", 1));
  }

  lemma {:induction false} WithIdsAmong(entries: seq<Entry>, e: Entry)
    requires e !in entries
    ensures e !in WithIds(entries)
  {
    if entries != [] { WithIdsAmong(entries[1..], e); }
  }

  // ---------------------------------------------------------------- runs that are not stopped

  /** No cancel, no crash, every row written; listings, fetches and imports may fail. */
  ghost predicate Steady(env: Env) {
    env.cancelAt.None? && env.crashAt.None? && forall t :: env.commit(t)
  }

  /** In addition every listing is served. */
  ghost predicate Unstopped(env: Env) {
    Steady(env) && forall i, s :: env.listing(i, s) == Served
  }

  lemma {:induction false} TriesGoOn(env: Env, w: World, n: nat)
    requires Steady(env) && w.halt.Going?
    ensures Tries(env, w, n).halt.Going?
    decreases n
  {
    if n > 0 { TriesGoOn(env, Tick(env, Gate(env, w)), n - 1); }
  }

  lemma {:induction false} ImportTriesGoOn(env: Env, w: World, k: ItemKey, failures: seq<bool>)
    requires Steady(env) && w.halt.Going?
    ensures ImportTries(env, w, k, failures).halt.Going?
    decreases |failures|
  {
    if failures != [] {
      var t := Tick(env, Gate(env, w));
      ImportTriesGoOn(env, if failures[0] then Lose(Accept(t, k), k) else t, k, failures[1..]);
    }
  }

  lemma CallGoesOn(env: Env, w: World, n: nat)
    requires Steady(env) && w.halt.Going?
    ensures RetriedCall(env, w, n).halt.Going?
  {
    TriesGoOn(env, StartCall(env, w), n);
  }

  lemma StreamNotCrashed(env: Env, w: World, e: Entry)
    requires Steady(env) && w.halt.Going?
    ensures !Stream(env, w, e).halt.Crashed?
  {
    CallGoesOn(env, w, env.fetch(w.now).failures);
    var f := FetchCall(env, w);
    if f.halt.Going? {
      var k := Key(env, e);
      ImportTriesGoOn(env, StartCall(env, f), k, env.import_(f.now).failures);
      var i := ImportCall(env, f, k);
      assert !i.halt.Crashed?;
    }
  }

  lemma MessageGoesOn(env: Env, w: World, e: Entry, dry: bool)
    requires Steady(env) && w.halt.Going?
    ensures Message(env, w, e, dry).halt.Going?
    ensures Message(env, w, e, dry).visited == w.visited + [e]
  {
    var g := Gate(env, w);
    var v := g.(visited := g.visited + [e]);
    MessageVisit(env, w, e, dry);
    if !Synced(v.books.items, Key(env, e)) && !dry && e.size <= MAX_MESSAGE_SIZE {
      StreamNotCrashed(env, v, e);
    }
  }

  lemma JoinFirst(before: seq<Entry>, page: seq<Entry>)
    requires page != []
    ensures before + [page[0]] + page[1..] == before + page
  {
  }

  lemma {:induction false} PageGoesOn(env: Env, w: World, page: seq<Entry>, dry: bool) returns (p: World)
    requires Steady(env) && w.halt.Going?
    ensures p == Page(env, w, page, dry)
    ensures p.halt.Going? && p.visited == w.visited + page
    decreases |page|
  {
    if page == [] {
      p := w;
    } else {
      MessageGoesOn(env, w, page[0], dry);
      p := PageGoesOn(env, Message(env, w, page[0], dry), page[1..], dry);
      JoinFirst(w.visited, page);
    }
  }

  lemma ListGoesOn(env: Env, w: World)
    requires Steady(env) && w.halt.Going?
    ensures Listed(env, w) && ListCall(env, w).halt.Going? && ListCall(env, w).visited == w.visited
  {
    var g := Gate(env, w);
    CallGoesOn(env, g, env.listFailures(g.now));
    ListCallFacts(env, w);
  }

  /** The pages from `start` on, up to the first short one or the first whose listing fails. */
  function PagesFrom(env: Env, index: nat, source: seq<Entry>, start: nat): seq<Entry>
    requires start >= 1
    decreases Unpaged(source, start)
  {
    var page := PageAt(source, start);
    if env.listing(index, start) != Served then []
    else if page == [] || |page| < LIMIT then page
    else page + PagesFrom(env, index, source, start + LIMIT)
  }

  lemma {:induction false} PagesAreVisits(env: Env, index: nat, source: seq<Entry>, start: nat)
    requires start >= 1 && Unstopped(env)
    ensures PagesFrom(env, index, source, start) == Visits(Rest(source, start))
    decreases Unpaged(source, start)
  {
    VisitsStep(source, start);
    var page := PageAt(source, start);
    if |page| < LIMIT {
      assert page + [] == page;
    } else {
      PagesAreVisits(env, index, source, start + LIMIT);
    }
  }

  lemma Join(before: seq<Entry>, page: seq<Entry>, more: seq<Entry>)
    ensures before + page + more == before + (page + more)
  {
  }

  lemma {:induction false} FolderVisits(env: Env, w: World, index: nat, source: seq<Entry>, start: nat, dry: bool)
      returns (r: World)
    requires start >= 1 && Steady(env) && w.halt.Going?
    ensures r == Folder(env, w, index, source, start, dry)
    ensures r.halt.Going? && r.visited == w.visited + PagesFrom(env, index, source, start)
    decreases Unpaged(source, start)
  {
    ListGoesOn(env, w);
    var c, page := ListCall(env, w), PageAt(source, start);
    if env.listing(index, start) != Served || page == [] {
      r := c;
    } else {
      r := PageGoesOn(env, c, page, dry);
      if |page| >= LIMIT {
        var p := r;
        r := FolderVisits(env, p, index, source, start + LIMIT, dry);
        Join(w.visited, page, PagesFrom(env, index, source, start + LIMIT));
      }
    }
  }

  /** The pages of the folders from `index` on; a listing that fails ends its own folder and no other. */
  function AllPages(env: Env, sources: seq<seq<Entry>>, index: nat): seq<Entry>
    requires index <= |sources|
    decreases |sources| - index
  {
    if index == |sources| then []
    else PagesFrom(env, index, sources[index], 1) + AllPages(env, sources, index + 1)
  }

  lemma {:induction false} FoldersVisit(env: Env, w: World, sources: seq<seq<Entry>>, index: nat, dry: bool)
      returns (r: World)
    requires index <= |sources| && Steady(env) && w.halt.Going?
    ensures r == StreamFolders(env, w, sources, index, dry)
    ensures r.halt.Going? && r.visited == w.visited + AllPages(env, sources, index)
    decreases |sources| - index
  {
    if index == |sources| {
      r := w;
    } else {
      GateFacts(env, w);
      var pages, more := PagesFrom(env, index, sources[index], 1), AllPages(env, sources, index + 1);
      Join(w.visited, pages, more);
      r := FolderVisits(env, Gate(env, w), index, sources[index], 1, dry);
      r := FoldersVisit(env, r, sources, index + 1, dry);
    }
  }

  lemma {:induction false} AllPagesAreVisits(env: Env, sources: seq<seq<Entry>>, index: nat)
    requires index <= |sources| && Unstopped(env)
    ensures AllPages(env, sources, index) == AllVisits(sources[index..])
    decreases |sources| - index
  {
    if index < |sources| {
      assert Rest(sources[index], 1) == sources[index] && sources[index..][1..] == sources[index + 1..];
      PagesAreVisits(env, index, sources[index], 1);
      AllPagesAreVisits(env, sources, index + 1);
    }
  }

  /**
   Whatever listings, fetches and imports fail: with neither a cancel nor a crash nor a failed commit a
   run comes to its end, having visited in each folder, in order, the pages before the first listing that
   failed, with every visit counted exactly once as synced, skipped or failed.
   */
  lemma SteadyRun(env: Env, w: World, sources: seq<seq<Entry>>, dry: bool)
    requires Steady(env) && Accounted(w.books)
    ensures var r := Run(env, w, sources, dry);
      && r.halt.Going? && r.visited == AllPages(env, sources, 0)
      && r.tally.synced + r.tally.skipped + r.tally.failed == |r.visited|
  {
    LabelFoldersFacts(env, Fresh(w), env.mailFolders, dry);
    var r := FoldersVisit(env, Labelled(env, w, dry), sources, 0, dry);
    RunInv(env, w, sources, dry);
  }

  /** If no listing fails, that is all the page loops hand out. */
  lemma UnstoppedRun(env: Env, w: World, sources: seq<seq<Entry>>, dry: bool)
    requires Unstopped(env) && Accounted(w.books)
    ensures var r := Run(env, w, sources, dry);
      && r.halt.Going? && r.visited == AllVisits(sources)
      && r.tally.synced + r.tally.skipped + r.tally.failed == |r.visited|
  {
    SteadyRun(env, w, sources, dry);
    AllPagesAreVisits(env, sources, 0);
    assert sources[0..] == sources;
  }

  // ---------------------------------------------------------------- a clean run, and the runs after it

  /** In addition every fetch brings bytes and every import ends acknowledged. */
  ghost predicate Clean(env: Env) {
    && Unstopped(env)
    && (forall t :: env.fetch(t).raw.Some? && env.fetch(t).raw.value != [])
    && (forall t :: env.import_(t).acked)
  }

  lemma InStepKeepsSynced(b: Books, b': Books, k: ItemKey, j: ItemKey)
    requires InStep(b, b', k) && Synced(b.items, j)
    ensures Synced(b'.items, j)
  {
    if j != k {
      assert j in b.items - {k} && (b'.items - {k})[j] == (b.items - {k})[j];
    }
  }

  lemma CleanMessage(env: Env, w: World, e: Entry)
    requires Clean(env) && w.halt.Going? && e.size <= MAX_MESSAGE_SIZE
    ensures Synced(Message(env, w, e, false).books.items, Key(env, e))
  {
    var g, k := Gate(env, w), Key(env, e);
    var v := g.(visited := g.visited + [e]);
    if !Synced(v.books.items, k) {
      CallGoesOn(env, v, env.fetch(v.now).failures);
      var f := FetchCall(env, v);
      ImportTriesGoOn(env, StartCall(env, f), k, env.import_(f.now).failures);
      assert ImportCall(env, f, k).halt.Going?;
      StreamFacts(env, v, e);
      assert Stream(env, v, e).halt.Going?;
    }
  }

  /** Every visited message of acceptable size has its row. */
  ghost predicate AllSynced(env: Env, w: World) {
    forall e | e in w.visited && e.size <= MAX_MESSAGE_SIZE :: Synced(w.books.items, Key(env, e))
  }

  lemma ApplyAllSynced(env: Env, w: World, op: Op)
    requires Clean(env) && w.halt.Going? && AllSynced(env, w)
    ensures AllSynced(env, Apply(env, w, op, false)) && Apply(env, w, op, false).halt.Going?
  {
    GateFacts(env, w);
    match op
    case AtGate =>
    case AList =>
      ListCallFacts(env, w);
      CallGoesOn(env, Gate(env, w), env.listFailures(Gate(env, w).now));
    case AMessage(e) =>
      MessageVisit(env, w, e, false);
      MessageGoesOn(env, w, e, false);
      var w' := Message(env, w, e, false);
      forall d | d in w'.visited && d.size <= MAX_MESSAGE_SIZE ensures Synced(w'.books.items, Key(env, d)) {
        if d == e {
          CleanMessage(env, w, e);
        } else {
          InStepKeepsSynced(w.books, w'.books, Key(env, e), Key(env, d));
        }
      }
  }

  lemma {:induction false} ExecAllSynced(env: Env, w: World, ops: seq<Op>)
    requires Clean(env) && w.halt.Going? && AllSynced(env, w)
    ensures AllSynced(env, Exec(env, w, ops, false))
    decreases |ops|
  {
    if ops != [] {
      ApplyAllSynced(env, w, ops[0]);
      ExecAllSynced(env, Apply(env, w, ops[0], false), ops[1..]);
    }
  }

  /**
   After any history, one clean live run leaves every message it can reach, of at most 25 MiB,
   SYNCED.
   */
  lemma CleanRunCompletes(env: Env, w: World, sources: seq<seq<Entry>>)
    requires Clean(env) && Accounted(w.books)
    ensures forall e | e in AllVisits(sources) && e.size <= MAX_MESSAGE_SIZE ::
              Synced(Run(env, w, sources, false).books.items, Key(env, e))
  {
    UnstoppedRun(env, w, sources, false);
    LabelFoldersFacts(env, Fresh(w), env.mailFolders, false);
    var ops := FoldersOps(env, Labelled(env, w, false), sources, 0, false);
    ExecAllSynced(env, Labelled(env, w, false), ops);
  }

  lemma MessageSkipped(env: Env, w: World, e: Entry)
    requires Gate(env, w).halt.Going? && Synced(w.books.items, Key(env, e))
    ensures var w' := Message(env, w, e, false);
      w' == Gate(env, w).(visited := w.visited + [e], tally := w.tally.(skipped := w.tally.skipped + 1))
  {
  }

  /** The ids of the visited messages of at most 25 MiB that had no SYNCED row to begin with. */
  function NewIds(env: Env, items: Items, visited: seq<Entry>): set<string> {
    set e | e in visited && e.size <= 26214400 && !Synced(items, ItemKey(EMAIL, e.id, Norm(env.email))) :: e.id
  }

  /** The key is that of one of the user's messages with these ids. */
  predicate OneOf(env: Env, ids: set<string>, k: ItemKey) {
    k.entity == EMAIL && k.user == Norm(env.email) && k.sourceId in ids
  }

  /** Since the books `start`, exactly these ids have got a row, and one copy each. */
  ghost predicate Gained(env: Env, start: Books, ids: set<string>, b: Books) {
    forall k :: Synced(b.items, k) == (Synced(start.items, k) || OneOf(env, ids, k))
             && Net(b, k) == Net(start, k) + Bit(OneOf(env, ids, k))
  }

  ghost predicate Gains(env: Env, start: Books, w: World) {
    var ids := NewIds(env, start.items, w.visited);
    w.tally.synced == |ids| && Gained(env, start, ids, w.books)
  }

  lemma NewIdsSnoc(env: Env, items: Items, visited: seq<Entry>, e: Entry)
    ensures NewIds(env, items, visited + [e]) == NewIds(env, items, visited) +
              if e.size <= 26214400 && !Synced(items, ItemKey(EMAIL, e.id, Norm(env.email))) then {e.id} else {}
  {
  }

  lemma GainStep(env: Env, start: Books, ids: set<string>, b: Books, b': Books, id: string)
    requires Gained(env, start, ids, b) && id !in ids
    requires InStep(b, b', ItemKey(EMAIL, id, Norm(env.email)))
    requires !Synced(b.items, ItemKey(EMAIL, id, Norm(env.email)))
    ensures var gain := Synced(b'.items, ItemKey(EMAIL, id, Norm(env.email)));
      Gained(env, start, ids + if gain then {id} else {}, b')
  {
    var key := ItemKey(EMAIL, id, Norm(env.email));
    var gain := Synced(b'.items, key);
    var ids' := ids + if gain then {id} else {};
    forall k ensures Synced(b'.items, k) == (Synced(start.items, k) || OneOf(env, ids', k))
                  && Net(b', k) == Net(start, k) + Bit(OneOf(env, ids', k))
    {
      assert k != key ==> (k in b'.items <==> k in b'.items - {key}) && (k in b.items <==> k in b.items - {key});
      assert k != key ==> OneOf(env, ids', k) == OneOf(env, ids, k);
      assert Net(b', k) - Net(b, k) == Bit(Synced(b'.items, k)) - Bit(Synced(b.items, k));
    }
  }

  lemma MessageGains(env: Env, start: Books, w: World, e: Entry)
    requires Clean(env) && w.halt.Going? && Gains(env, start, w)
    ensures Gains(env, start, Message(env, w, e, false))
  {
    var w', ids := Message(env, w, e, false), NewIds(env, start.items, w.visited);
    assert Key(env, e) == ItemKey(EMAIL, e.id, Norm(env.email));
    NewIdsSnoc(env, start.items, w.visited, e);
    MessageVisit(env, w, e, false);
    if Synced(w.books.items, Key(env, e)) {
      MessageSkipped(env, w, e);
      assert Synced(start.items, Key(env, e)) || e.id in ids;
    } else {
      MessageGoesOn(env, w, e, false);
      MessageRow(env, w, e);
      assert !OneOf(env, ids, Key(env, e));
      GainStep(env, start, ids, w.books, w'.books, e.id);
      if e.size <= MAX_MESSAGE_SIZE { CleanMessage(env, w, e); }
    }
  }

  lemma {:induction false} ExecGains(env: Env, start: Books, w: World, ops: seq<Op>)
    requires Clean(env) && w.halt.Going? && Gains(env, start, w)
    ensures Gains(env, start, Exec(env, w, ops, false))
    decreases |ops|
  {
    if ops != [] {
      GateFacts(env, w);
      match ops[0] {
        case AtGate =>
        case AList => ListGoesOn(env, w); ListCallFacts(env, w);
        case AMessage(e) => MessageGains(env, start, w, e); MessageGoesOn(env, w, e, false);
      }
      ExecGains(env, start, Apply(env, w, ops[0], false), ops[1..]);
    }
  }

  /**
   And it imports each message once: of the visited ids without a SYNCED row, each with a listed size of
   at most 25 MiB gets such a row and one more copy in Gmail that is not lost; nothing else gets either,
   and the run reports as many messages synced as there are such ids.
   */
  lemma CleanRunGains(env: Env, w: World, sources: seq<seq<Entry>>)
    requires Clean(env) && Accounted(w.books)
    ensures var r, ids := Run(env, w, sources, false), NewIds(env, w.books.items, AllVisits(sources));
      && r.tally.synced == |ids|
      && forall k :: Synced(r.books.items, k) == (Synced(w.books.items, k) || OneOf(env, ids, k))
                  && Net(r.books, k) == Net(w.books, k) + Bit(OneOf(env, ids, k))
  {
    UnstoppedRun(env, w, sources, false);
    LabelFoldersFacts(env, Fresh(w), env.mailFolders, false);
    var l := Labelled(env, w, false);
    var ops := FoldersOps(env, l, sources, 0, false);
    assert Gains(env, w.books, l);
    ExecGains(env, w.books, l, ops);
  }

  /** With the page loops complete, that is every message of the mailbox that has an id. */
  lemma CleanRunCompletesSource(env: Env, w: World, sources: seq<seq<Entry>>, i: nat, e: Entry)
    requires Clean(env) && Accounted(w.books)
    requires i < |sources| && NoEarlyStop(sources[i])
    requires e in sources[i] && e.id != "" && e.size <= MAX_MESSAGE_SIZE
    ensures Synced(Run(env, w, sources, false).books.items, Key(env, e))
  {
    VisitsEverything(sources[i]);
    WithIdsHas(sources[i], e);
    AllVisitsHas(sources, i, e);
    CleanRunCompletes(env, w, sources);
  }

  lemma {:induction false} WithIdsHas(entries: seq<Entry>, e: Entry)
    requires e in entries && e.id != ""
    ensures e in WithIds(entries)
  {
    if entries[0] != e { WithIdsHas(entries[1..], e); }
  }

  lemma {:induction false} AllVisitsHas(sources: seq<seq<Entry>>, i: nat, e: Entry)
    requires i < |sources| && e in Visits(sources[i])
    ensures e in AllVisits(sources)
  {
    if i > 0 { AllVisitsHas(sources[1..], i - 1, e); }
  }

  /** Nothing new has been imported, and what was settled still is. */
  ghost predicate Idle(env: Env, entries: seq<Entry>, accepted: multiset<ItemKey>, w: World) {
    && w.tally.synced == 0 && w.books.accepted == accepted
    && forall e | e in entries && e.size <= MAX_MESSAGE_SIZE :: Synced(w.books.items, Key(env, e))
  }

  lemma ApplyIdle(env: Env, entries: seq<Entry>, accepted: multiset<ItemKey>, w: World, op: Op)
    requires Idle(env, entries, accepted, w)
    requires op.AMessage? ==> op.e in entries
    ensures Idle(env, entries, accepted, Apply(env, w, op, false))
  {
    GateFacts(env, w);
    match op
    case AtGate =>
    case AList => ListCallFacts(env, w);
    case AMessage(e) =>
      var w' := Message(env, w, e, false);
      if Gate(env, w).halt.Going? {
        MessageVisit(env, w, e, false);
        var k := Key(env, e);
        if !Synced(w.books.items, k) {
          var g := Gate(env, w);
          WriteRowFacts(env, g.(visited := g.visited + [e]), k,
                        ItemRow(FAILED_SIZE_EXCEEDED, None, None, Some("Message size exceeds 25MB limit")));
        }
        forall d | d in entries && d.size <= MAX_MESSAGE_SIZE ensures Synced(w'.books.items, Key(env, d)) {
          InStepKeepsSynced(w.books, w'.books, k, Key(env, d));
        }
      } else {
        MessageStopped(env, w, e, false);
      }
  }

  lemma {:induction false} ExecIdle(env: Env, entries: seq<Entry>, accepted: multiset<ItemKey>, w: World, ops: seq<Op>)
    requires Idle(env, entries, accepted, w) && Within(ops, entries)
    ensures Idle(env, entries, accepted, Exec(env, w, ops, false))
    decreases |ops|
  {
    if ops != [] {
      assert ops[0] in ops && forall op :: op in ops[1..] ==> op in ops;
      ApplyIdle(env, entries, accepted, w, ops[0]);
      ExecIdle(env, entries, accepted, Apply(env, w, ops[0], false), ops[1..]);
    }
  }

  /** A SYNCED row is never taken back. */
  ghost predicate Grows(w: World, w': World) {
    forall k | Synced(w.books.items, k) :: Synced(w'.books.items, k)
  }

  lemma ApplyGrows(env: Env, w: World, op: Op, dry: bool)
    ensures Grows(w, Apply(env, w, op, dry))
  {
    GateFacts(env, w);
    match op
    case AtGate =>
    case AList => ListCallFacts(env, w);
    case AMessage(e) =>
      if Gate(env, w).halt.Going? {
        MessageVisit(env, w, e, dry);
        forall k | Synced(w.books.items, k) ensures Synced(Apply(env, w, op, dry).books.items, k) {
          InStepKeepsSynced(w.books, Apply(env, w, op, dry).books, Key(env, e), k);
        }
      }
  }

  lemma {:induction false} ExecGrows(env: Env, w: World, ops: seq<Op>, dry: bool)
    ensures Grows(w, Exec(env, w, ops, dry))
    decreases |ops|
  {
    if ops != [] {
      ApplyGrows(env, w, ops[0], dry);
      ExecGrows(env, Apply(env, w, ops[0], dry), ops[1..], dry);
    }
  }

  lemma RunGrows(env: Env, w: World, sources: seq<seq<Entry>>, dry: bool)
    ensures Grows(w, Run(env, w, sources, dry))
  {
    LabelFoldersFacts(env, Fresh(w), env.mailFolders, dry);
    var ops := FoldersOps(env, Labelled(env, w, dry), sources, 0, dry);
    ExecGrows(env, Labelled(env, w, dry), ops, dry);
  }

  /** Over any sequence of runs, of any users and however they end, SYNCED rows stay. */
  lemma {:induction false} ReplayGrows(w: World, jobs: seq<Job>)
    ensures Grows(w, Replay(w, jobs))
    decreases |jobs|
  {
    if jobs != [] {
      var j := jobs[|jobs| - 1];
      ReplayGrows(w, jobs[..|jobs| - 1]);
      RunGrows(j.env, Replay(w, jobs[..|jobs| - 1]), j.sources, j.dry);
    }
  }

  /**
   After a clean run, and any runs in between, every later live run over the same source, whatever
   happens to it, imports nothing: Gmail accepts no copy and the run reports synced = 0.
   */
  lemma LaterRunImportsNothing(env: Env, w: World, sources: seq<seq<Entry>>, jobs: seq<Job>, later: Env)
    requires Clean(env) && Accounted(w.books) && Norm(later.email) == Norm(env.email)
    ensures var w' := Replay(Run(env, w, sources, false), jobs);
      && Run(later, w', sources, false).tally.synced == 0
      && Run(later, w', sources, false).books.accepted == w'.books.accepted
  {
    CleanRunCompletes(env, w, sources);
    var first := Run(env, w, sources, false);
    var w' := Replay(first, jobs);
    ReplayGrows(first, jobs);
    assert forall e: Entry :: Key(later, e) == Key(env, e);
    LabelFoldersFacts(later, Fresh(w'), later.mailFolders, false);
    var ops := FoldersOps(later, Labelled(later, w', false), sources, 0, false);
    assert sources[0..] == sources;
    ExecIdle(later, AllVisits(sources), w'.books.accepted, Labelled(later, w', false), ops);
  }

  // ---------------------------------------------------------------- dry run against live run

  /** How many of the visited messages already had a row at the start. */
  function Already(env: Env, items: Items, visited: seq<Entry>): nat {
    if visited == [] then 0
    else Already(env, items, visited[..|visited| - 1])
         + if Synced(items, Key(env, visited[|visited| - 1])) then 1 else 0
  }

  /** The listed sizes of the visited messages that had no row at the start. */
  function NewBytes(env: Env, items: Items, visited: seq<Entry>): int {
    if visited == [] then 0
    else NewBytes(env, items, visited[..|visited| - 1])
         + if Synced(items, Key(env, visited[|visited| - 1])) then 0 else visited[|visited| - 1].size
  }

  ghost predicate DryInv(env: Env, start: Books, w: World) {
    && w.books == start && w.tally.failed == 0
    && w.tally.skipped == Already(env, start.items, w.visited)
    && w.tally.bytes == NewBytes(env, start.items, w.visited)
  }

  ghost predicate LiveInv(env: Env, start: Books, w: World) {
    && (forall k | Synced(start.items, k) :: Synced(w.books.items, k))
    && w.tally.skipped >= Already(env, start.items, w.visited)
  }

  lemma ApplyPredicts(env: Env, start: Books, w: World, op: Op, dry: bool)
    requires if dry then DryInv(env, start, w) else LiveInv(env, start, w)
    ensures var w' := Apply(env, w, op, dry);
      if dry then DryInv(env, start, w') else LiveInv(env, start, w')
  {
    GateFacts(env, w);
    match op
    case AtGate =>
    case AList => ListCallFacts(env, w);
    case AMessage(e) =>
      var w' := Message(env, w, e, dry);
      if Gate(env, w).halt.Going? {
        MessageVisit(env, w, e, dry);
        assert w'.visited[..|w'.visited| - 1] == w.visited;
        if !dry {
          forall k | Synced(start.items, k) ensures Synced(w'.books.items, k) {
            InStepKeepsSynced(w.books, w'.books, Key(env, e), k);
          }
        }
      } else {
        MessageStopped(env, w, e, dry);
      }
  }

  lemma {:induction false} ExecPredicts(env: Env, start: Books, w: World, ops: seq<Op>, dry: bool)
    requires if dry then DryInv(env, start, w) else LiveInv(env, start, w)
    ensures var w' := Exec(env, w, ops, dry);
      if dry then DryInv(env, start, w') else LiveInv(env, start, w')
    decreases |ops|
  {
    if ops != [] {
      ApplyPredicts(env, start, w, ops[0], dry);
      ExecPredicts(env, start, Apply(env, w, ops[0], dry), ops[1..], dry);
    }
  }

  /**
   A dry run changes neither item rows nor folder rows, has no message imported and no label created,
   whatever happens to it.  Its counters are those of the messages it visited: skipped if they had a
   row before, otherwise counted with their size.
   */
  lemma DryRunChangesNothing(env: Env, w: World, sources: seq<seq<Entry>>)
    ensures var r := Run(env, w, sources, true);
      && r.books == w.books && r.tally.failed == 0
      && r.tally.skipped == Already(env, w.books.items, r.visited)
      && r.tally.bytes == NewBytes(env, w.books.items, r.visited)
  {
    LabelFoldersFacts(env, Fresh(w), env.mailFolders, true);
    var ops := FoldersOps(env, Fresh(w), sources, 0, true);
    ExecPredicts(env, w.books, Fresh(w), ops, true);
  }

  /**
   A dry run and a live run from the same checkpoint over the same pages, neither of them stopped:
   they visit the same messages, and the dry run's forecast is too high by exactly the live run's
   failures and additional skips.
   */
  lemma DryRunForecast(env: Env, live: Env, w: World, sources: seq<seq<Entry>>)
    requires Unstopped(env) && Unstopped(live) && Norm(live.email) == Norm(env.email) && Accounted(w.books)
    ensures var d, l := Run(env, w, sources, true), Run(live, w, sources, false);
      && d.visited == l.visited
      && d.tally.synced - l.tally.synced == l.tally.failed + (l.tally.skipped - d.tally.skipped)
      && d.tally.skipped <= l.tally.skipped
  {
    UnstoppedRun(env, w, sources, true);
    UnstoppedRun(live, w, sources, false);
    LabelFoldersFacts(env, Fresh(w), env.mailFolders, true);
    var ops := FoldersOps(env, Fresh(w), sources, 0, true);
    ExecPredicts(env, w.books, Fresh(w), ops, true);
    LabelFoldersFacts(live, Fresh(w), live.mailFolders, false);
    var ops' := FoldersOps(live, Labelled(live, w, false), sources, 0, false);
    ExecPredicts(live, w.books, Labelled(live, w, false), ops', false);
    SameAlready(env, live, w.books.items, AllVisits(sources));
  }

  lemma {:induction false} SameAlready(env: Env, live: Env, items: Items, visited: seq<Entry>)
    requires Norm(live.email) == Norm(env.email)
    ensures Already(env, items, visited) == Already(live, items, visited)
  {
    if visited != [] { SameAlready(env, live, items, visited[..|visited| - 1]); }
  }
}
