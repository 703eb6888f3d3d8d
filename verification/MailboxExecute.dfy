/** The agent's outer loop: one mailbox after another over the same books, and the totals it reports. */
module MailboxExecute {
  import opened Prelude
  import opened Checkpoint
  import opened Mailbox
  import opened MailboxProofs
  import opened MailboxCoverage
  import opened MailboxAgent

  /** A user to migrate; `folders` is None when listing the folders raises. */
  datatype Account = Account(env: Env, hasAccount: bool, folders: Option<seq<seq<Entry>>>)

  const NONE := Tally(0, 0, 0, 0)

  function Plus(a: Tally, b: Tally): Tally {
    Tally(a.synced + b.synced, a.skipped + b.skipped, a.failed + b.failed, a.bytes + b.bytes)
  }

  /** When the one cancel and the one crash come, on the clock that all mailboxes share. */
  datatype Signals = Signals(cancelAt: Option<nat>, crashAt: Option<nat>)

  datatype Progress = Progress(
    books: Books,
    now: nat,
    total: Tally,
    results: map<string, Tally>,
    halt: Halt,
    lateCalls: nat,
    lateRows: nat,
    lateUsers: nat)  // users for whom a label was created after the cancel

  function Begin(b: Books, now: nat): Progress { Progress(b, now, NONE, map[], Going, 0, 0, 0) }

  function StartWorld(p: Progress): World { World(p.books, p.now, Going, NONE, 0, 0, 0, []) }

  function EnvOf(a: Account, sg: Signals): Env { a.env.(cancelAt := sg.cancelAt, crashAt := sg.crashAt) }

  /** One user; nothing happens once an exception or a crash has ended the loop. */
  function OneUser(p: Progress, a: Account, sg: Signals, dry: bool): Progress {
    if !p.halt.Going? || !a.hasAccount then p
    else if a.folders.None? then
      p.(total := Plus(p.total, Tally(0, 0, 1, 0)), results := p.results[a.env.email := Tally(0, 0, 1, 0)])
    else
      var r := Run(EnvOf(a, sg), StartWorld(p), a.folders.value, dry);
      var q := p.(books := r.books, now := r.now, halt := r.halt, lateCalls := p.lateCalls + r.lateCalls,
                  lateRows := p.lateRows + r.lateRows, lateUsers := p.lateUsers + if r.lateLabels > 0 then 1 else 0);
      if !r.halt.Going? then q
      else q.(total := Plus(p.total, r.tally), results := p.results[a.env.email := r.tally])
  }

  function AllUsers(p: Progress, users: seq<Account>, sg: Signals, dry: bool): Progress
    decreases |users|
  {
    if users == [] then p else OneUser(AllUsers(p, users[..|users| - 1], sg, dry), users[|users| - 1], sg, dry)
  }

  ghost function BooksOf(store: CheckpointStore, gmail: Gmail): Books
    reads store, gmail
  {
    Books(store.items, store.folders, gmail.accepted, gmail.lost, gmail.created)
  }

  method Execute(users: seq<Account>, store: CheckpointStore, gmail: Gmail, sg: Signals, dryRun: bool, start: nat)
      returns (total: Tally, results: map<string, Tally>, halt: Halt, ghost end: Progress)
    modifies store, gmail
    ensures end == AllUsers(Begin(old(BooksOf(store, gmail)), start), users, sg, dryRun)
    ensures end.books == BooksOf(store, gmail) && end.total == total && end.results == results && end.halt == halt
  {
    ghost var p := Begin(BooksOf(store, gmail), start);
    total, results, halt, end := NONE, map[], Going, p;
    var u, now := 0, start;
    while u < |users|
      invariant u <= |users|
      invariant end == AllUsers(p, users[..u], sg, dryRun)
      invariant end.books == BooksOf(store, gmail) && end.total == total && end.results == results
      invariant end.halt == halt && end.now == now
    {
      assert users[..u + 1][..u] == users[..u];
      var a := users[u];
      u := u + 1;
      end := OneUser(end, a, sg, dryRun);
      if halt != Going || !a.hasAccount { continue; }
      if a.folders.None? {
        results := results[a.env.email := Tally(0, 0, 1, 0)];
        total := Plus(total, Tally(0, 0, 1, 0));
        continue;
      }
      var agent := new StreamingAgent(a.env.(cancelAt := sg.cancelAt, crashAt := sg.crashAt), store, gmail, dryRun, now);
      agent.MigrateUser(a.folders.value);
      halt, now := agent.halt, agent.now;
      if halt == Going {
        var tally := Tally(agent.synced, agent.skipped, agent.failed, agent.bytes);
        results := results[a.env.email := tally];
        total := Plus(total, tally);
      }
    }
    assert users[..u] == users;
  }

  // ---------------------------------------------------------------- what the summary adds up to

  /** The target addresses of the users that have an account, in order. */
  function Addresses(users: seq<Account>): seq<string>
    decreases |users|
  {
    if users == [] then []
    else Addresses(users[..|users| - 1]) + Address(users[|users| - 1])
  }

  function Address(a: Account): seq<string> { if a.hasAccount then [a.env.email] else [] }

  /** The results shown for these addresses, added up. */
  function SumOver(emails: seq<string>, results: map<string, Tally>): Tally {
    if emails == [] then NONE
    else
      var e := emails[|emails| - 1];
      Plus(SumOver(emails[..|emails| - 1], results), if e in results then results[e] else NONE)
  }

  ghost predicate Distinct(emails: seq<string>) {
    forall i, j | 0 <= i < j < |emails| :: emails[i] != emails[j]
  }

  lemma {:induction false} SumOverSame(emails: seq<string>, r: map<string, Tally>, e: string, t: Tally)
    requires e !in emails
    ensures SumOver(emails, r[e := t]) == SumOver(emails, r)
  {
    if emails != [] {
      SumOverSame(emails[..|emails| - 1], r, e, t);
    }
  }

  lemma SumOverSnoc(rest: seq<string>, e: string, r: map<string, Tally>)
    ensures SumOver(rest + [e], r) == Plus(SumOver(rest, r), if e in r then r[e] else NONE)
  {
    assert (rest + [e])[..|rest|] == rest;
  }

  lemma PlusNone(x: Tally)
    ensures Plus(x, NONE) == x
  {
  }

  /** A last address without a result of its own adds nothing; a result it gets is added on top. */
  lemma SumOverLast(rest: seq<string>, e: string, r: map<string, Tally>, t: Tally)
    requires e !in rest && e !in r
    ensures SumOver(rest + [e], r) == SumOver(rest, r)
    ensures SumOver(rest + [e], r[e := t]) == Plus(SumOver(rest, r), t)
  {
    SumOverSnoc(rest, e, r);
    PlusNone(SumOver(rest, r));
    SumOverSnoc(rest, e, r[e := t]);
    SumOverSame(rest, r, e, t);
  }

  /** What one user adds to the totals is what its result shows. */
  lemma UserResult(p: Progress, a: Account, sg: Signals, dry: bool) returns (t: Tally)
    requires Accounted(p.books) && (a.hasAccount ==> a.env.email !in p.results)
    ensures var q := OneUser(p, a, sg, dry);
      && Accounted(q.books)
      && ((q.total == p.total && q.results == p.results)
          || (a.hasAccount && q.total == Plus(p.total, t) && q.results == p.results[a.env.email := t]))
  {
    var q := OneUser(p, a, sg, dry);
    t := if a.env.email in q.results then q.results[a.env.email] else NONE;
    if p.halt.Going? && a.hasAccount && a.folders.Some? {
      RunInv(EnvOf(a, sg), StartWorld(p), a.folders.value, dry);
    }
  }

  /** What the summary promises after the users with the addresses `emails`. */
  ghost predicate AddsUp(p: Progress, emails: seq<string>) {
    && Accounted(p.books)
    && p.total == SumOver(emails, p.results)
    && forall e | e in p.results :: e in emails
  }

  lemma UserAddsUp(p: Progress, emails: seq<string>, a: Account, sg: Signals, dry: bool)
    requires AddsUp(p, emails) && (a.hasAccount ==> a.env.email !in emails)
    ensures AddsUp(OneUser(p, a, sg, dry), emails + Address(a))
  {
    var t := UserResult(p, a, sg, dry);
    if a.hasAccount {
      SumOverLast(emails, a.env.email, p.results, t);
    } else {
      assert emails + Address(a) == emails;
    }
  }

  /**
   For distinct addresses the reported totals are the sums of the per-user results, and the books
   stay accounted for from one mailbox to the next, however the loop ends.
   */
  lemma {:induction false} TotalsAddUp(b: Books, now: nat, users: seq<Account>, sg: Signals, dry: bool)
    requires Accounted(b) && Distinct(Addresses(users))
    ensures AddsUp(AllUsers(Begin(b, now), users, sg, dry), Addresses(users))
    decreases |users|
  {
    if users != [] {
      var rest, a := users[..|users| - 1], users[|users| - 1];
      var e := Addresses(rest);
      assert Addresses(users)[..|e|] == e;
      assert a.hasAccount ==> Addresses(users)[|e|] == a.env.email;
      TotalsAddUp(b, now, rest, sg, dry);
      UserAddsUp(AllUsers(Begin(b, now), rest, sg, dry), e, a, sg, dry);
    }
  }

  // ---------------------------------------------------------------- every user gets its turn

  /** What is reported for a user: one failure if its folders could not be listed, else each visit counted once. */
  ghost predicate Reported(results: map<string, Tally>, a: Account, sg: Signals) {
    a.hasAccount ==>
      && a.env.email in results
      && var t := results[a.env.email];
         if a.folders.None? then t == Tally(0, 0, 1, 0)
         else
           && t.synced + t.skipped + t.failed == |AllPages(EnvOf(a, sg), a.folders.value, 0)|
           && (Unstopped(EnvOf(a, sg)) ==> t.synced + t.skipped + t.failed == |AllVisits(a.folders.value)|)
  }

  /** Neither a cancel nor a crash comes, and no commit of the user fails. */
  ghost predicate Undisturbed(a: Account, sg: Signals) {
    a.hasAccount && a.folders.Some? ==> Steady(EnvOf(a, sg))
  }

  /** The turn of one user: it is reported, the others' results stay, and so do all SYNCED rows. */
  lemma UserTurn(p: Progress, a: Account, sg: Signals, dry: bool)
    requires Accounted(p.books) && p.halt.Going? && Undisturbed(a, sg)
    ensures var q := OneUser(p, a, sg, dry);
      && Accounted(q.books) && q.halt.Going? && Reported(q.results, a, sg)
      && (forall e | e in p.results && (a.hasAccount ==> e != a.env.email) ::
            e in q.results && q.results[e] == p.results[e])
      && (forall k | Synced(p.books.items, k) :: Synced(q.books.items, k))
  {
    if a.hasAccount && a.folders.Some? {
      var env, w := EnvOf(a, sg), StartWorld(p);
      SteadyRun(env, w, a.folders.value, dry);
      if Unstopped(env) { UnstoppedRun(env, w, a.folders.value, dry); }
      RunInv(env, w, a.folders.value, dry);
      RunGrows(env, w, a.folders.value, dry);
    }
  }

  lemma {:induction false} AddressIn(users: seq<Account>, i: nat)
    requires i < |users| && users[i].hasAccount
    ensures users[i].env.email in Addresses(users)
    decreases |users|
  {
    if i < |users| - 1 { AddressIn(users[..|users| - 1], i); }
  }

  /** Distinct addresses: the last one is new, and the ones before it are distinct. */
  lemma LastIsNew(users: seq<Account>)
    requires users != [] && Distinct(Addresses(users))
    ensures var rest, a := users[..|users| - 1], users[|users| - 1];
      Distinct(Addresses(rest)) && (a.hasAccount ==> a.env.email !in Addresses(rest))
  {
    var rest, a := users[..|users| - 1], users[|users| - 1];
    var e := Addresses(rest);
    assert Addresses(users)[..|e|] == e;
    assert a.hasAccount ==> Addresses(users)[|e|] == a.env.email;
  }

  /**
   Undisturbed, execute leaves no user out: each one with an account is in the results, with exactly
   one failure if its folders could not be listed, and otherwise with every message of the pages that
   could be listed counted exactly once.
   */
  lemma {:induction false} EveryUserReported(b: Books, now: nat, users: seq<Account>, sg: Signals, dry: bool)
    requires Accounted(b) && Distinct(Addresses(users)) && forall a | a in users :: Undisturbed(a, sg)
    ensures var p := AllUsers(Begin(b, now), users, sg, dry);
      && Accounted(p.books) && p.halt.Going?
      && forall i | 0 <= i < |users| :: Reported(p.results, users[i], sg)
    decreases |users|
  {
    if users != [] {
      var rest, a := users[..|users| - 1], users[|users| - 1];
      LastIsNew(users);
      EveryUserReported(b, now, rest, sg, dry);
      var p := AllUsers(Begin(b, now), rest, sg, dry);
      UserTurn(p, a, sg, dry);
      forall i | 0 <= i < |users| ensures Reported(OneUser(p, a, sg, dry).results, users[i], sg) {
        if i < |rest| {
          assert Reported(p.results, rest[i], sg);
          if users[i].hasAccount { AddressIn(rest, i); }
        }
      }
    }
  }

  /** SYNCED rows stay while further users have their turns, and so does a result. */
  lemma {:induction false} TurnsKeep(b: Books, now: nat, users: seq<Account>, i: nat, sg: Signals, dry: bool)
    requires Accounted(b) && Distinct(Addresses(users)) && forall a | a in users :: Undisturbed(a, sg)
    requires i < |users| && users[i].hasAccount
    ensures var p, q := AllUsers(Begin(b, now), users[..i + 1], sg, dry), AllUsers(Begin(b, now), users, sg, dry);
      && (forall k | Synced(p.books.items, k) :: Synced(q.books.items, k))
      && var e := users[i].env.email;
         e in p.results ==> e in q.results && q.results[e] == p.results[e]
    decreases |users|
  {
    var rest, a := users[..|users| - 1], users[|users| - 1];
    if i == |users| - 1 {
      assert users[..i + 1] == users;
    } else {
      assert rest[..i + 1] == users[..i + 1];
      LastIsNew(users);
      TurnsKeep(b, now, rest, i, sg, dry);
      AddressIn(rest, i);
      EveryUserReported(b, now, rest, sg, dry);
      UserTurn(AllUsers(Begin(b, now), rest, sg, dry), a, sg, dry);
    }
  }

  lemma {:induction false} DistinctPrefix(users: seq<Account>, n: nat)
    requires n <= |users| && Distinct(Addresses(users))
    ensures Distinct(Addresses(users[..n]))
    decreases |users|
  {
    if n == |users| {
      assert users[..n] == users;
    } else {
      LastIsNew(users);
      assert users[..|users| - 1][..n] == users[..n];
      DistinctPrefix(users[..|users| - 1], n);
    }
  }

  /**
   A live user whose fetches and imports go well, among users that are not disturbed: the result shows
   as many messages synced as it had visited ids without a row, each of at most 25 MiB; and when execute
   is over, every visited message of that size is SYNCED.
   */
  lemma CleanUserMigrated(b: Books, now: nat, users: seq<Account>, i: nat, sg: Signals)
    requires Accounted(b) && Distinct(Addresses(users)) && forall a | a in users :: Undisturbed(a, sg)
    requires i < |users| && users[i].hasAccount && users[i].folders.Some? && Clean(EnvOf(users[i], sg))
    ensures var a, before, p := users[i], AllUsers(Begin(b, now), users[..i], sg, false),
                                AllUsers(Begin(b, now), users, sg, false);
      && a.env.email in p.results
      && p.results[a.env.email].synced == |NewIds(a.env, before.books.items, AllVisits(a.folders.value))|
      && forall e | e in AllVisits(a.folders.value) && e.size <= 26214400 ::
           Synced(p.books.items, ItemKey(EMAIL, e.id, Norm(a.env.email)))
  {
    var a, first := users[i], users[..i + 1];
    assert first[..i] == users[..i];
    DistinctPrefix(users, i);
    EveryUserReported(b, now, users[..i], sg, false);
    var before := AllUsers(Begin(b, now), users[..i], sg, false);
    CleanRunGains(EnvOf(a, sg), StartWorld(before), a.folders.value);
    CleanRunCompletes(EnvOf(a, sg), StartWorld(before), a.folders.value);
    UnstoppedRun(EnvOf(a, sg), StartWorld(before), a.folders.value, false);
    assert AllUsers(Begin(b, now), first, sg, false) == OneUser(before, a, sg, false);
    TurnsKeep(b, now, users, i, sg, false);
    forall e | e in AllVisits(a.folders.value) && e.size <= 26214400
      ensures Synced(AllUsers(Begin(b, now), first, sg, false).books.items, ItemKey(EMAIL, e.id, Norm(a.env.email)))
    {
      assert Key(EnvOf(a, sg), e) == ItemKey(EMAIL, e.id, Norm(a.env.email));
    }
  }

  // ---------------------------------------------------------------- a cancel across mailboxes

  /** A stream that begins after the cancel does nothing; if there is a folder to stream, it ends there. */
  lemma {:induction false} StreamStopped(env: Env, w: World, sources: seq<seq<Entry>>, index: nat, dry: bool)
    requires index <= |sources| && (w.halt.Going? ==> Due(env.cancelAt, w.now))
    ensures var r := StreamFolders(env, w, sources, index, dry);
      && Neutral(w, r) && (index < |sources| ==> !r.halt.Going?)
    decreases |sources| - index
  {
    if index < |sources| {
      GateFacts(env, w);
      StreamStopped(env, Gate(env, w), sources, index + 1, dry);
    }
  }

  /** Each listed folder is one source of messages. */
  ghost predicate Listed(a: Account) {
    a.folders.Some? ==> |a.env.mailFolders| == |a.folders.value|
  }

  /** What holds before each user. */
  ghost predicate LateOk(p: Progress, sg: Signals) {
    && Accounted(p.books)
    && p.lateCalls <= 1 && p.lateRows <= 1 && p.lateUsers <= 1
    && (p.lateCalls + p.lateRows > 0 ==> Due(sg.cancelAt, p.now))
    && (p.halt.Going? ==> p.lateUsers == 0)
  }

  /** A run that begins after the cancel visits no message, and its user is the last one with folders. */
  lemma RunAfterCancel(env: Env, w: World, sources: seq<seq<Entry>>, dry: bool)
    requires Due(env.cancelAt, w.now)
    ensures var r := Run(env, w, sources, dry);
      && r.visited == [] && r.lateCalls == 0 && r.lateRows == 0
      && r.books == w.books.(folders := r.books.folders, created := r.books.created)
      && (sources != [] ==> !r.halt.Going?)
  {
    LabelFoldersFacts(env, Fresh(w), env.mailFolders, dry);
    StreamStopped(env, Labelled(env, w, dry), sources, 0, dry);
  }

  lemma LateLabelsStop(env: Env, w: World, sources: seq<seq<Entry>>, dry: bool)
    requires |env.mailFolders| == |sources| && Run(env, w, sources, dry).lateLabels > 0
    ensures !Run(env, w, sources, dry).halt.Going?
  {
    RunLabels(env, w, sources, dry);
    StreamStopped(env, Labelled(env, w, dry), sources, 0, dry);
  }

  lemma UserLate(p: Progress, a: Account, sg: Signals, dry: bool)
    requires LateOk(p, sg) && Listed(a)
    ensures LateOk(OneUser(p, a, sg, dry), sg)
  {
    if p.halt.Going? && a.hasAccount && a.folders.Some? {
      var env, w := EnvOf(a, sg), StartWorld(p);
      var r := Run(env, w, a.folders.value, dry);
      RunInv(env, w, a.folders.value, dry);
      RunLabels(env, w, a.folders.value, dry);
      if Due(sg.cancelAt, p.now) { RunAfterCancel(env, w, a.folders.value, dry); }
      if r.lateLabels > 0 { LateLabelsStop(env, w, a.folders.value, dry); }
    }
  }

  /**
   One cancel for all mailboxes: after it, execute as a whole starts at most one more retry-wrapped
   call, writes at most one more item row, and has labels created for at most one user, although the
   labelling itself never looks at the pause controller.
   */
  lemma {:induction false} ExecuteAfterCancel(b: Books, now: nat, users: seq<Account>, sg: Signals, dry: bool)
    requires Accounted(b) && forall a | a in users :: Listed(a)
    ensures var p := AllUsers(Begin(b, now), users, sg, dry);
      LateOk(p, sg) && p.lateCalls <= 1 && p.lateRows <= 1 && p.lateUsers <= 1
    decreases |users|
  {
    if users != [] {
      ExecuteAfterCancel(b, now, users[..|users| - 1], sg, dry);
      UserLate(AllUsers(Begin(b, now), users[..|users| - 1], sg, dry), users[|users| - 1], sg, dry);
    }
  }
}
