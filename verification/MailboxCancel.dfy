/** What a cancel that comes in the middle of a run still lets happen: exactly when, and that it can. */
module MailboxCancel {
  import opened Prelude
  import opened Checkpoint
  import opened Mailbox
  import opened MailboxProofs

  /** The operation passes its gate at a message that a live run still has to import. */
  predicate NewMessage(env: Env, w: World, op: Op, dry: bool) {
    op.AMessage? && Gate(env, w).halt.Going? && !dry && !Synced(w.books.items, Key(env, op.e))
  }

  /** A message is visited and gets its row, and the cancel falls between the gate and that row. */
  predicate LateRowAt(env: Env, w: World, op: Op, dry: bool) {
    && NewMessage(env, w, op, dry) && Apply(env, w, op, dry).halt.Going?
    && env.cancelAt.Some? && w.now < env.cancelAt.value < Apply(env, w, op, dry).now
  }

  /** A call started at this instant starts after the cancel. */
  predicate StartsLate(env: Env, at: nat) { Due(env.cancelAt, at) && !Due(env.crashAt, at) }

  /** The cancel falls between a gate that was passed and the start of the listing, the fetch or the import. */
  predicate LateCallAt(env: Env, w: World, op: Op, dry: bool) {
    var g := Gate(env, w);
    match op
    case AtGate => false
    case AList => g.halt.Going? && StartsLate(env, g.now)
    case AMessage(e) =>
      && NewMessage(env, w, op, dry) && e.size <= MAX_MESSAGE_SIZE
      && var v := g.(visited := g.visited + [e]);
         StartsLate(env, v.now) || (FetchCall(env, v).halt.Going? && StartsLate(env, FetchCall(env, v).now))
  }

  // ---------------------------------------------------------------- one operation

  lemma RowLate(env: Env, w: World, k: ItemKey, row: ItemRow)
    requires w.halt.Going?
    ensures var t := WriteRow(env, w, k, row);
      && t.lateRows == w.lateRows + Bit(t.halt.Going? && Due(env.cancelAt, w.now))
      && (t.halt.Going? ==> t.now == w.now + 1)
  {
  }

  lemma StreamLateRow(env: Env, w: World, e: Entry)
    requires w.halt.Going? && !Synced(w.books.items, Key(env, e))
    ensures var h := Handle(env, Stream(env, w, e), Key(env, e));
      h.lateRows == w.lateRows + Bit(h.halt.Going? && env.cancelAt.Some? && env.cancelAt.value < h.now)
  {
    var k, s := Key(env, e), Stream(env, w, e);
    StreamFacts(env, w, e);
    if s.halt.Going? {
      StreamGoingLateRow(env, w, e);
    } else if s.halt.Raised? {
      RowLate(env, CountFailed(s.(halt := Going)), k, ItemRow(FAILED, None, None, Some("error")));
    }
  }

  lemma StreamGoingLateRow(env: Env, w: World, e: Entry)
    requires w.halt.Going? && Stream(env, w, e).halt.Going?
    ensures var s := Stream(env, w, e);
      s.lateRows == w.lateRows + Bit(env.cancelAt.Some? && env.cancelAt.value < s.now)
  {
    var k, f := Key(env, e), FetchCall(env, w);
    FetchCallFacts(env, w);
    ImportCallFacts(env, f, k);
    var raw := env.fetch(w.now).raw.value;
    RowLate(env, ImportCall(env, f, k), k, ItemRow(SYNCED, env.import_(f.now).destination, Some(env.digest(raw)), None));
  }

  lemma ApplyLateRow(env: Env, w: World, op: Op, dry: bool)
    ensures Apply(env, w, op, dry).lateRows == w.lateRows + Bit(LateRowAt(env, w, op, dry))
  {
    GateFacts(env, w);
    match op
    case AtGate =>
    case AList => ListCallFacts(env, w);
    case AMessage(e) =>
      if NewMessage(env, w, op, dry) {
        var g := Gate(env, w);
        var v := g.(visited := g.visited + [e]);
        if e.size > MAX_MESSAGE_SIZE {
          RowLate(env, v, Key(env, e), ItemRow(FAILED_SIZE_EXCEEDED, None, None, Some("Message size exceeds 25MB limit")));
        } else {
          StreamLateRow(env, v, e);
        }
      }
  }

  lemma CallLate(env: Env, w: World, n: nat)
    requires w.halt.Going?
    ensures RetriedCall(env, w, n).lateCalls == w.lateCalls + Bit(StartsLate(env, w.now))
  {
    TriesNeutral(env, StartCall(env, w), n);
  }

  lemma ImportLate(env: Env, w: World, k: ItemKey)
    requires w.halt.Going?
    ensures ImportCall(env, w, k).lateCalls == w.lateCalls + Bit(StartsLate(env, w.now))
  {
    ImportTriesFacts(env, StartCall(env, w), k, env.import_(w.now).failures);
  }

  lemma HandleLate(env: Env, s: World, k: ItemKey)
    ensures Handle(env, s, k).lateCalls == s.lateCalls
  {
  }

  lemma StreamLateCall(env: Env, w: World, e: Entry)
    requires w.halt.Going?
    ensures var f := FetchCall(env, w);
      Stream(env, w, e).lateCalls ==
      w.lateCalls + Bit(StartsLate(env, w.now) || (f.halt.Going? && StartsLate(env, f.now)))
  {
    var f := FetchCall(env, w);
    CallLate(env, w, env.fetch(w.now).failures);
    FetchCallFacts(env, w);
    if f.halt.Going? { ImportLate(env, f, Key(env, e)); }
  }

  lemma ApplyLateCall(env: Env, w: World, op: Op, dry: bool)
    ensures Apply(env, w, op, dry).lateCalls == w.lateCalls + Bit(LateCallAt(env, w, op, dry))
  {
    GateFacts(env, w);
    var g := Gate(env, w);
    match op
    case AtGate =>
    case AList => if g.halt.Going? { CallLate(env, g, env.listFailures(g.now)); }
    case AMessage(e) =>
      if NewMessage(env, w, op, dry) && e.size <= MAX_MESSAGE_SIZE {
        var v := g.(visited := g.visited + [e]);
        StreamLateCall(env, v, e);
        HandleLate(env, Stream(env, v, e), Key(env, e));
      }
  }

  // ---------------------------------------------------------------- whole runs

  ghost predicate SomeLateRow(env: Env, w: World, ops: seq<Op>, dry: bool) {
    exists j | 0 <= j < |ops| :: LateRowAt(env, Exec(env, w, ops[..j], dry), ops[j], dry)
  }

  ghost predicate SomeLateCall(env: Env, w: World, ops: seq<Op>, dry: bool) {
    exists j | 0 <= j < |ops| :: LateCallAt(env, Exec(env, w, ops[..j], dry), ops[j], dry)
  }

  lemma ExecLast(env: Env, w: World, ops: seq<Op>, dry: bool)
    requires ops != []
    ensures Exec(env, w, ops, dry) == Apply(env, Exec(env, w, ops[..|ops| - 1], dry), ops[|ops| - 1], dry)
  {
    var n := |ops| - 1;
    ExecAppend(env, w, ops[..n], [ops[n]], dry);
    OneOp(env, Exec(env, w, ops[..n], dry), ops[n], dry);
    assert ops[..n] + [ops[n]] == ops;
  }

  lemma {:induction false} ExecLate(env: Env, w: World, ops: seq<Op>, dry: bool)
    ensures var r := Exec(env, w, ops, dry);
      && r.lateRows >= w.lateRows && r.lateCalls >= w.lateCalls
      && (r.lateRows > w.lateRows <==> SomeLateRow(env, w, ops, dry))
      && (r.lateCalls > w.lateCalls <==> SomeLateCall(env, w, ops, dry))
    decreases |ops|
  {
    if ops != [] {
      var n := |ops| - 1;
      var before := Exec(env, w, ops[..n], dry);
      ExecLate(env, w, ops[..n], dry);
      ExecLast(env, w, ops, dry);
      ApplyLateRow(env, before, ops[n], dry);
      ApplyLateCall(env, before, ops[n], dry);
      LastRow(env, w, ops, dry);
      LastCall(env, w, ops, dry);
    }
  }

  lemma Prefixes(ops: seq<Op>)
    requires ops != []
    ensures forall j | 0 <= j < |ops| - 1 ::
              ops[..|ops| - 1][..j] == ops[..j] && ops[..|ops| - 1][j] == ops[j]
  {
  }

  lemma LastRow(env: Env, w: World, ops: seq<Op>, dry: bool)
    requires ops != []
    ensures var n := |ops| - 1;
      SomeLateRow(env, w, ops, dry) <==>
      SomeLateRow(env, w, ops[..n], dry) || LateRowAt(env, Exec(env, w, ops[..n], dry), ops[n], dry)
  {
    Prefixes(ops);
  }

  lemma LastCall(env: Env, w: World, ops: seq<Op>, dry: bool)
    requires ops != []
    ensures var n := |ops| - 1;
      SomeLateCall(env, w, ops, dry) <==>
      SomeLateCall(env, w, ops[..n], dry) || LateCallAt(env, Exec(env, w, ops[..n], dry), ops[n], dry)
  {
    Prefixes(ops);
  }

  /**
   In every run: a row is written after the cancel exactly when the cancel falls between the gate and
   the row of some new message of a live run, and a call is started after the cancel exactly when the
   cancel falls between a gate and the call behind it.  Neither ever happens more than once.
   */
  lemma LateExactly(env: Env, w: World, sources: seq<seq<Entry>>, dry: bool) returns (ops: seq<Op>)
    requires Accounted(w.books)
    ensures Within(ops, AllVisits(sources))
    ensures var start, r := Labelled(env, w, dry), Run(env, w, sources, dry);
      && r == Exec(env, start, ops, dry)
      && r.lateRows == Bit(SomeLateRow(env, start, ops, dry))
      && r.lateCalls == Bit(SomeLateCall(env, start, ops, dry))
  {
    var start := Labelled(env, w, dry);
    LabelFoldersFacts(env, Fresh(w), env.mailFolders, dry);
    ops := FoldersOps(env, start, sources, 0, dry);
    assert sources[0..] == sources;
    ExecLate(env, start, ops, dry);
    AfterCancel(env, w, sources, dry);
  }

  // ---------------------------------------------------------------- when a run sees the cancel at all

  /** The process does not die, and every row gets written. */
  ghost predicate Solid(env: Env) {
    env.crashAt.None? && forall t :: env.commit(t)
  }

  lemma {:induction false} TriesSolid(env: Env, w: World, n: nat)
    requires Solid(env) && !w.halt.Crashed?
    ensures !Tries(env, w, n).halt.Crashed?
    decreases n
  {
    if n > 0 { TriesSolid(env, Tick(env, Gate(env, w)), n - 1); }
  }

  lemma {:induction false} ImportTriesSolid(env: Env, w: World, k: ItemKey, failures: seq<bool>)
    requires Solid(env) && !w.halt.Crashed?
    ensures !ImportTries(env, w, k, failures).halt.Crashed?
    decreases |failures|
  {
    if failures != [] {
      var t := Tick(env, Gate(env, w));
      ImportTriesSolid(env, if t.halt.Going? && failures[0] then Lose(Accept(t, k), k) else t, k, failures[1..]);
    }
  }

  lemma CallSolid(env: Env, w: World, n: nat)
    requires Solid(env) && w.halt.Going?
    ensures !RetriedCall(env, w, n).halt.Crashed?
  {
    TriesSolid(env, StartCall(env, w), n);
  }

  lemma ImportSolid(env: Env, w: World, k: ItemKey)
    requires Solid(env) && w.halt.Going?
    ensures !ImportCall(env, w, k).halt.Crashed?
  {
    ImportTriesSolid(env, StartCall(env, w), k, env.import_(w.now).failures);
  }

  lemma StreamSolid(env: Env, w: World, e: Entry)
    requires Solid(env) && w.halt.Going?
    ensures Handle(env, Stream(env, w, e), Key(env, e)).halt.Going?
  {
    CallSolid(env, w, env.fetch(w.now).failures);
    var f := FetchCall(env, w);
    if f.halt.Going? { ImportSolid(env, f, Key(env, e)); }
    assert !Stream(env, w, e).halt.Crashed?;
  }

  /** An operation raises exactly if the cancel comes before its gate; a later one it catches. */
  lemma ApplyRaises(env: Env, w: World, op: Op, dry: bool)
    requires Solid(env) && w.halt.Going?
    ensures Apply(env, w, op, dry).halt == if Due(env.cancelAt, w.now) then Raised else Going
  {
    match op
    case AtGate =>
    case AList =>
      var g := Gate(env, w);
      if g.halt.Going? { CallSolid(env, g, env.listFailures(g.now)); }
    case AMessage(e) =>
      var g := Gate(env, w);
      if g.halt.Going? { StreamSolid(env, g.(visited := g.visited + [e]), e); }
  }

  /** An operation in a world that has stopped leaves it as it is. */
  lemma ApplyStopped(env: Env, w: World, op: Op, dry: bool)
    requires !w.halt.Going?
    ensures Apply(env, w, op, dry) == w
  {
  }

  /** At the gate of one of the operations the cancel has come. */
  ghost predicate SomeGateLate(env: Env, w: World, ops: seq<Op>, dry: bool) {
    exists j | 0 <= j < |ops| :: Due(env.cancelAt, Exec(env, w, ops[..j], dry).now)
  }

  lemma LastGate(env: Env, w: World, ops: seq<Op>, dry: bool)
    requires ops != []
    ensures var n := |ops| - 1;
      SomeGateLate(env, w, ops, dry) <==>
      SomeGateLate(env, w, ops[..n], dry) || Due(env.cancelAt, Exec(env, w, ops[..n], dry).now)
  {
    var first := ops[..|ops| - 1];
    assert forall j | 0 <= j <= |first| :: first[..j] == ops[..j];
  }

  lemma {:induction false} ExecRaises(env: Env, w: World, ops: seq<Op>, dry: bool)
    requires Solid(env) && w.halt.Going?
    ensures Exec(env, w, ops, dry).halt == if SomeGateLate(env, w, ops, dry) then Raised else Going
    ensures Exec(env, w, ops, dry).halt.Raised? ==> Due(env.cancelAt, Exec(env, w, ops, dry).now)
    decreases |ops|
  {
    if ops != [] {
      var n := |ops| - 1;
      var before := Exec(env, w, ops[..n], dry);
      ExecRaises(env, w, ops[..n], dry);
      ExecLast(env, w, ops, dry);
      LastGate(env, w, ops, dry);
      if before.halt.Going? {
        ApplyRaises(env, before, ops[n], dry);
        if Due(env.cancelAt, before.now) { assert Gate(env, before).now >= before.now; }
      } else {
        ApplyStopped(env, before, ops[n], dry);
      }
    }
  }

  /**
   While the process lives and rows get written: a run ends with the exception of a cancel exactly if the
   cancel has come at the gate of one of its folders, pages or messages; otherwise it returns as if it had
   not been cancelled, wherever inside a listing, a fetch or an import the cancel fell.
   */
  lemma RaisesExactly(env: Env, w: World, sources: seq<seq<Entry>>, dry: bool) returns (ops: seq<Op>)
    requires Solid(env)
    ensures var start, r := Labelled(env, w, dry), Run(env, w, sources, dry);
      && r == Exec(env, start, ops, dry)
      && r.halt == if SomeGateLate(env, start, ops, dry) then Raised else Going
  {
    var start := Labelled(env, w, dry);
    LabelFoldersFacts(env, Fresh(w), env.mailFolders, dry);
    ops := FoldersOps(env, start, sources, 0, dry);
    ExecRaises(env, start, ops, dry);
  }

  // ---------------------------------------------------------------- concrete runs

  /** Everything answers at once and every row gets written; only the cancel is left open. */
  ghost predicate Prompt(env: Env) {
    && env.crashAt.None? && env.mailFolders == [MailFolder("1", "Inbox")] && env.listing(0, 1) == Served
    && (forall t :: env.listFailures(t) == 0) && (forall t :: env.commit(t))
    && (forall t :: env.fetch(t).failures == 0)
  }

  /** The world when the run gets to its first message. */
  function AtFirst(w: World): World { Fresh(w).(now := w.now + 5) }

  lemma FirstListed(env: Env, w: World)
    requires Prompt(env) && env.cancelAt.Some? && env.cancelAt.value > w.now + 5
    ensures var g := Gate(env, Fresh(w));
      g.halt.Going? && Listed(env, g) && ListCall(env, g) == AtFirst(w)
  {
    var g := Gate(env, Fresh(w));
    assert g == Fresh(w).(now := w.now + 1);
    var h := Gate(env, g);
    assert h == Fresh(w).(now := w.now + 2);
    var c := StartCall(env, h);
    assert c == Fresh(w).(now := w.now + 3);
    assert Tries(env, c, 0) == c;
    assert Gate(env, c) == Fresh(w).(now := w.now + 4);
  }

  /** The inbox needs no label of its own. */
  lemma LabelledInbox(env: Env, w: World)
    requires Prompt(env)
    ensures Labelled(env, w, false) == Fresh(w)
  {
    var inbox := MailFolder("1", "Inbox");
    assert Lower("Inbox") == "inbox" && Norm("Inbox") == "inbox";
    assert LabelFolder(env, Fresh(w), inbox, false).0 == Fresh(w);
    assert [inbox][..0] == [] && LabelFolders(env, Fresh(w), [], false).0 == Fresh(w);
  }

  lemma OneMessageRun(env: Env, w: World, e: Entry)
    requires Prompt(env) && env.cancelAt.Some? && env.cancelAt.value > w.now + 5 && e.id != ""
    ensures Run(env, w, [[e]], false) == Message(env, AtFirst(w), e, false)
  {
    FirstListed(env, w);
    var g, m := Gate(env, Fresh(w)), Message(env, AtFirst(w), e, false);
    assert WithIds([e]) == [e] by { assert [e][1..] == []; }
    assert [e][0..1] == [e];
    assert PageAt([e], 1) == [e];
    assert [e][1..] == [];
    assert Page(env, m, [], false) == m;
    assert Page(env, AtFirst(w), [e], false) == m;
    assert Folder(env, g, 0, [e], 1, false) == m;
    assert StreamFolders(env, m, [[e]], 1, false) == m;
    LabelledInbox(env, w);
  }

  /**
   The cancel comes inside the fetch: the worker swallows it, writes a FAILED row, and the run of a
   mailbox that ends there returns as if nothing had happened.
   */
  lemma CancelInsideFetch(env: Env, w: World, e: Entry)
    requires Prompt(env) && env.cancelAt == Some(w.now + 7)
    requires e.id != "" && e.size <= MAX_MESSAGE_SIZE && !Synced(w.books.items, Key(env, e))
    ensures var r := Run(env, w, [[e]], false);
      && r.lateRows == 1 && r.lateCalls == 0 && r.halt.Going? && r.tally == Tally(0, 0, 1, 0)
      && r.books == w.books.(items := w.books.items[Key(env, e) := ItemRow(FAILED, None, None, Some("error"))])
  {
    OneMessageRun(env, w, e);
    var v := AtFirst(w).(now := w.now + 6, visited := [e]);
    assert Gate(env, AtFirst(w)).(visited := Gate(env, AtFirst(w)).visited + [e]) == v;
    var c := StartCall(env, v);
    assert c == v.(now := w.now + 7);
    assert Tries(env, c, 0) == c;
    assert Gate(env, c) == v.(now := w.now + 8, halt := Raised);
    assert FetchCall(env, v) == v.(now := w.now + 8, halt := Raised);
  }

  /** The cancel comes between the gate and the fetch: one late call and one late row, so both bounds are reached. */
  lemma CancelBeforeFetch(env: Env, w: World, e: Entry)
    requires Prompt(env) && env.cancelAt == Some(w.now + 6)
    requires e.id != "" && e.size <= MAX_MESSAGE_SIZE && !Synced(w.books.items, Key(env, e))
    ensures var r := Run(env, w, [[e]], false); r.lateRows == 1 && r.lateCalls == 1
  {
    OneMessageRun(env, w, e);
    var v := AtFirst(w).(now := w.now + 6, visited := [e]);
    assert Gate(env, AtFirst(w)).(visited := Gate(env, AtFirst(w)).visited + [e]) == v;
    var c := StartCall(env, v);
    assert c == v.(now := w.now + 7, lateCalls := 1);
    assert Tries(env, c, 0) == c;
    assert FetchCall(env, v) == c.(now := w.now + 8, halt := Raised);
  }
}
