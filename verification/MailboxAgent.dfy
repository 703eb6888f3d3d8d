/**
 The streaming loops as they run: nested loops over folders, pages and messages that update the
 checkpoint store, Gmail and the counters in place.  An exception is a `halt` the loops leave at.
 Every method is proved equal to its function in `Mailbox`, about which the guarantees are proved.
 */
module MailboxAgent {
  import opened Prelude
  import opened Checkpoint
  import opened Labels
  import opened Mailbox

  class Gmail {
    var accepted: multiset<ItemKey>
    var created: multiset<FolderKey>
    ghost var lost: multiset<ItemKey>

    constructor ()
      ensures accepted == multiset{} && created == multiset{} && lost == multiset{}
    {
      accepted, created := multiset{}, multiset{};
      lost := multiset{};
    }
  }

  class StreamingAgent {
    const env: Env
    const dryRun: bool
    const store: CheckpointStore
    const gmail: Gmail
    var now: nat
    var halt: Halt
    var synced: nat
    var skipped: nat
    var failed: nat
    var bytes: int
    ghost var lateCalls: nat
    ghost var lateRows: nat
    ghost var lateLabels: nat
    ghost var visited: seq<Entry>

    ghost function W(): World
      reads this, store, gmail
    {
      World(B(), now, halt, Tally(synced, skipped, failed, bytes), lateCalls, lateRows, lateLabels,
            visited)
    }

    ghost function B(): Books
      reads store, gmail
    {
      Books(store.items, store.folders, gmail.accepted, gmail.lost, gmail.created)
    }

    constructor (env: Env, store: CheckpointStore, gmail: Gmail, dryRun: bool, now: nat)
      ensures this.env == env && this.dryRun == dryRun && this.store == store && this.gmail == gmail && this.now == now
      ensures W() == World(B(), now, Going, Tally(0, 0, 0, 0), 0, 0, 0, [])
    {
      this.env, this.dryRun, this.store, this.gmail := env, dryRun, store, gmail;
      this.now, halt := now, Going;
      synced, skipped, failed, bytes := 0, 0, 0, 0;
      lateCalls, lateRows, lateLabels, visited := 0, 0, 0, [];
    }

    /** Time passes; the process may die first. */
    method Advance()
      modifies this
      ensures W() == Tick(env, old(W()))
    {
      if halt == Going {
        if Due(env.crashAt, now) { halt := Crashed; } else { now := now + 1; }
      }
    }

    method WaitIfPaused()
      modifies this
      ensures W() == Gate(env, old(W()))
    {
      var at := now;
      Advance();
      if halt == Going && Due(env.cancelAt, at) { halt := Raised; }
    }

    method BeginCall()
      modifies this
      ensures W() == StartCall(env, old(W()))
    {
      ghost var at := now;
      Advance();
      if halt == Going { lateCalls := lateCalls + if Due(env.cancelAt, at) then 1 else 0; }
    }

    /** retry_with_backoff around a call without side effects. */
    method Retried(failures: nat)
      modifies this
      ensures W() == RetriedCall(env, old(W()), failures)
    {
      BeginCall();
      var left := failures;
      ghost var w := W();
      while left > 0
        invariant Tries(env, W(), left) == Tries(env, w, failures)
      {
        WaitIfPaused();
        Advance();
        left := left - 1;
      }
      WaitIfPaused();
      Advance();
    }

    method FetchMessage() returns (raw: Option<Bytes>)
      requires halt == Going
      modifies this
      ensures W() == FetchCall(env, old(W())) && raw == env.fetch(old(now)).raw
    {
      var answer := env.fetch(now);
      raw := answer.raw;
      Retried(answer.failures);
      if halt == Going && (raw.None? || raw.value == []) { halt := Raised; }
    }

    /** The tries of an import that fail, some after Gmail has accepted the message. */
    method FailedTries(key: ItemKey, failures: seq<bool>)
      modifies this, gmail
      ensures W() == ImportTries(env, old(W()), key, failures)
    {
      var i := 0;
      ghost var w := W();
      while i < |failures|
        invariant i <= |failures|
        invariant ImportTries(env, W(), key, failures[i..]) == ImportTries(env, w, key, failures)
      {
        WaitIfPaused();
        Advance();
        if halt == Going && failures[i] {
          gmail.accepted := gmail.accepted + multiset{key};
          gmail.lost := gmail.lost + multiset{key};
        }
        assert failures[i..][1..] == failures[i + 1..];
        i := i + 1;
      }
    }

    method ImportMessage(key: ItemKey) returns (destination: Option<string>)
      requires halt == Going
      modifies this, gmail
      ensures W() == ImportCall(env, old(W()), key) && destination == env.import_(old(now)).destination
    {
      var answer := env.import_(now);
      destination := answer.destination;
      BeginCall();
      FailedTries(key, answer.failures);
      WaitIfPaused();
      Advance();
      if halt == Going {
        if answer.acked { gmail.accepted := gmail.accepted + multiset{key}; } else { halt := Raised; }
      }
    }

    method RecordRow(id: string, row: ItemRow)
      requires halt == Going
      modifies this, store`items
      ensures W() == WriteRow(env, old(W()), KeyOf(EMAIL, id, env.email), row)
    {
      var at := now;
      Advance();
      if halt == Going {
        if env.commit(at) {
          store.RecordItemSync(EMAIL, id, env.email, row);
          lateRows := lateRows + if Due(env.cancelAt, at) then 1 else 0;
        } else {
          halt := Raised;
        }
      }
    }

    /** The try block. */
    method TryStream(e: Entry)
      requires halt == Going
      modifies this, store`items, gmail
      ensures W() == Stream(env, old(W()), e)
    {
      var raw := FetchMessage();
      if halt != Going { return; }
      var destination := ImportMessage(Key(env, e));
      if halt != Going { return; }
      RecordRow(e.id, ItemRow(SYNCED, destination, Some(env.digest(raw.value)), None));
      if halt == Going {
        synced := synced + 1;
        bytes := bytes + |raw.value|;
      } else {
        gmail.lost := gmail.lost + multiset{Key(env, e)};
      }
    }

    method SkipOversize(id: string)
      requires halt == Going
      modifies this, store`items
      ensures W() == Oversize(env, old(W()), KeyOf(EMAIL, id, env.email))
    {
      RecordRow(id, ItemRow(FAILED_SIZE_EXCEEDED, None, None, Some("Message size exceeds 25MB limit")));
      if halt == Going { failed := failed + 1; }
    }

    /** The except block. */
    method Except(id: string)
      modifies this, store`items
      ensures W() == Handle(env, old(W()), KeyOf(EMAIL, id, env.email))
    {
      if halt == Raised {
        halt := Going;
        failed := failed + 1;
        RecordRow(id, ItemRow(FAILED, None, None, Some("error")));
      }
    }

    method StreamMessage(e: Entry)
      modifies this, store`items, gmail
      ensures W() == Message(env, old(W()), e, dryRun)
    {
      WaitIfPaused();
      if halt != Going { return; }
      visited := visited + [e];
      var done := store.IsItemSynced(EMAIL, e.id, env.email);
      if done {
        skipped := skipped + 1;
        return;
      }
      if dryRun {
        synced := synced + 1;
        bytes := bytes + e.size;
        return;
      }
      if e.size > MAX_MESSAGE_SIZE {
        SkipOversize(e.id);
      } else {
        TryStream(e);
        Except(e.id);
      }
    }

    method ListPage(index: nat, source: seq<Entry>, start: nat) returns (page: seq<Entry>)
      requires start >= 1 && halt == Going
      modifies this
      ensures W() == ListCall(env, old(W()))
      ensures halt != Going ==> page == []
      ensures halt == Going ==>
                page == if Listed(env, old(W())) && env.listing(index, start) == Served then PageAt(source, start) else []
    {
      page := [];
      WaitIfPaused();
      if halt != Going { return; }
      Retried(env.listFailures(now));
      if halt == Going {
        if env.listing(index, start) == Served { page := PageAt(source, start); }
      } else if halt == Raised {
        halt := Going;
      }
    }

    method StreamFolder(index: nat, source: seq<Entry>)
      requires halt == Going
      modifies this, store`items, gmail
      ensures W() == Folder(env, old(W()), index, source, 1, dryRun)
    {
      var start := 1;
      while true
        invariant start >= 1 && halt == Going
        invariant Folder(env, W(), index, source, start, dryRun) == Folder(env, old(W()), index, source, 1, dryRun)
        decreases Unpaged(source, start)
      {
        ghost var before := W();
        var page := ListPage(index, source, start);
        if halt != Going {
          ClosedList(env, before);
          return;
        }
        if page == [] { return; }
        ghost var listed := W();
        var i := 0;
        while i < |page|
          invariant i <= |page|
          invariant Page(env, W(), page[i..], dryRun) == Page(env, listed, page, dryRun)
        {
          assert page[i..][1..] == page[i + 1..];
          StreamMessage(page[i]);
          i := i + 1;
        }
        if halt != Going || |page| < LIMIT { return; }
        start := start + LIMIT;
      }
    }

    method Reset()
      modifies this
      ensures W() == Fresh(old(W()))
    {
      ghost var w := W();
      halt := Going;
      synced, skipped, failed, bytes := 0, 0, 0, 0;
      lateCalls, lateRows, lateLabels, visited := 0, 0, 0, [];
      assert B() == w.books && now == w.now;
    }

    /** The label of one folder, looked up or created. */
    method EnsureLabel(f: MailFolder) returns (labelId: string)
      modifies this, store`folders, gmail`created
      ensures (W(), labelId) == LabelFolder(env, old(W()), f, dryRun)
    {
      if Norm(f.name) in SYSTEM_FOLDERS { return SYSTEM_FOLDERS[Norm(f.name)]; }
      if dryRun { return "LABEL_" + f.name; }
      var at := now;
      Advance();
      if halt != Going { return "INBOX"; }
      var asked := now;
      Advance();
      var saved := halt == Going && env.saveMapping(asked);
      labelId := SettleFolder(f, env.ensureLabel(at), saved, at);
    }

    /** The folder's own label: from the table, or else Google's answer, saved if that succeeds. */
    method SettleFolder(f: MailFolder, answer: Option<string>, saved: bool, at: nat) returns (labelId: string)
      modifies this`lateLabels, store`folders, gmail`created
      ensures (W(), labelId) == SettleLabel(env, old(W()), f, answer, saved, at)
    {
      var known := store.GetGoogleLabelId(env.email, f.id);
      if known.Some? && known.value != "" { return known.value; }
      if answer.None? { return "INBOX"; }
      var key := FolderKey(Norm(env.email), f.id);
      assert (gmail.created + multiset{key})[key] != gmail.created[key];
      gmail.created := gmail.created + multiset{key};
      if Due(env.cancelAt, at) { lateLabels := lateLabels + 1; }
      if !saved { return "INBOX"; }
      store.SaveFolderMapping(env.email, f.id, f.name, answer.value);
      return answer.value;
    }

    /** _map_and_create_labels: one label for each folder, in order. */
    method MapAndCreateLabels() returns (labels: seq<string>)
      modifies this, store`folders, gmail`created
      ensures (W(), labels) == LabelFolders(env, old(W()), env.mailFolders, dryRun)
    {
      labels := [];
      var i := 0;
      while i < |env.mailFolders|
        invariant i <= |env.mailFolders|
        invariant (W(), labels) == LabelFolders(env, old(W()), env.mailFolders[..i], dryRun)
      {
        var labelId := EnsureLabel(env.mailFolders[i]);
        labels := labels + [labelId];
        assert env.mailFolders[..i + 1][..i] == env.mailFolders[..i];
        i := i + 1;
      }
      assert env.mailFolders[..i] == env.mailFolders;
    }

    /** _stream_user_mailbox: the counters are what the caller gets, unless an exception ends the run. */
    method StreamUserMailbox(sources: seq<seq<Entry>>)
      modifies this, store`items, gmail
      ensures W() == StreamFolders(env, old(W()), sources, 0, dryRun)
    {
      var index := 0;
      while index < |sources|
        invariant index <= |sources|
        invariant StreamFolders(env, W(), sources, index, dryRun) == StreamFolders(env, old(W()), sources, 0, dryRun)
      {
        WaitIfPaused();
        if halt == Going { StreamFolder(index, sources[index]); }
        index := index + 1;
      }
    }

    /** What execute does with one user whose folders could be listed. */
    method MigrateUser(sources: seq<seq<Entry>>)
      modifies this, store, gmail
      ensures W() == Run(env, old(W()), sources, dryRun)
    {
      Reset();
      var labels := MapAndCreateLabels();
      StreamUserMailbox(sources);
    }
  }

  /** A listing that did not come back leaves the loop in a world that is not going. */
  lemma ClosedList(env: Env, w: World)
    requires !ListCall(env, w).halt.Going?
    ensures !Listed(env, w)
  {
  }
}
