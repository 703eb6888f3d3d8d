/**
 Mailbox streaming as a function of the world it runs in.  Every statement that another thread,
 a crash or the network can get in front of takes one tick of `now`; the instants of a cancel and
 of a crash are arbitrary.  A world that is not `Going` is left alone, so an exception or a crash
 ends everything that would follow.
 */
module Mailbox {
  import opened Prelude
  import opened Checkpoint
  import opened Labels

  const MAX_MESSAGE_SIZE: int := 25 * 1024 * 1024
  const LIMIT: nat := 100

  type Bytes = seq<bv8>

  /** A listed message; an entry of the source without an id is dropped by the listing. */
  datatype Entry = Entry(id: string, size: int)

  /** A folder as listed for the user; its messages are one of the sources of the run. */
  datatype MailFolder = MailFolder(id: string, name: string)

  datatype Listing = Served | Swallowed | ListRaised

  datatype Fetch = Fetch(failures: nat, raw: Option<Bytes>)

  /** The failed tries of a retried import (true: accepted but the acknowledgement was lost), and the last one. */
  datatype Import = Import(failures: seq<bool>, acked: bool, destination: Option<string>)

  /** Everything the environment decides about one run for one user. */
  datatype Env = Env(
    email: string,
    cancelAt: Option<nat>,
    crashAt: Option<nat>,
    mailFolders: seq<MailFolder>,
    ensureLabel: nat -> Option<string>,  // Some("INBOX") also after an error that the client has caught itself
    saveMapping: nat -> bool,
    listing: (nat, nat) -> Listing,
    listFailures: nat -> nat,
    fetch: nat -> Fetch,
    import_: nat -> Import,
    commit: nat -> bool,
    digest: Bytes -> string)

  datatype Halt = Going | Raised | Crashed

  /** What is durable: the checkpoint rows, and Google's side of the history. */
  datatype Books = Books(
    items: Items,
    folders: Folders,
    accepted: multiset<ItemKey>,   // copies Gmail has accepted
    lost: multiset<ItemKey>,       // acceptances whose acknowledgement or commit was lost
    created: multiset<FolderKey>)  // requests for a label that Google has answered with an id

  function LabelsOf(b: Books): Labels { Labels(b.folders, b.created) }

  datatype Tally = Tally(synced: nat, skipped: nat, failed: nat, bytes: int)

  datatype World = World(
    books: Books,
    now: nat,
    halt: Halt,
    tally: Tally,
    lateCalls: nat,               // retry-wrapped calls started after the cancel
    lateRows: nat,                // item rows written after the cancel
    lateLabels: nat,              // folders whose label was created after the cancel
    visited: seq<Entry>)

  predicate Due(at: Option<nat>, now: nat) { at.Some? && at.value <= now }

  function Key(env: Env, e: Entry): ItemKey { KeyOf(EMAIL, e.id, env.email) }

  // ---------------------------------------------------------------- single statements

  function Tick(env: Env, w: World): World {
    if !w.halt.Going? then w
    else if Due(env.crashAt, w.now) then w.(halt := Crashed)
    else w.(now := w.now + 1)
  }

  /** wait_if_paused: raises if the cancel has happened, else lets the worker through. */
  function Gate(env: Env, w: World): World {
    var t := Tick(env, w);
    if t.halt.Going? && Due(env.cancelAt, w.now) then t.(halt := Raised) else t
  }

  function StartCall(env: Env, w: World): World {
    var t := Tick(env, w);
    if t.halt.Going? && Due(env.cancelAt, w.now) then t.(lateCalls := t.lateCalls + 1) else t
  }

  /** The first tries of a retried call without side effects: a gate and a call each. */
  function Tries(env: Env, w: World, n: nat): World
    decreases n
  {
    if n == 0 then w else Tries(env, Tick(env, Gate(env, w)), n - 1)
  }

  function WriteRow(env: Env, w: World, k: ItemKey, row: ItemRow): World {
    var t := Tick(env, w);
    if !t.halt.Going? then t
    else if !env.commit(w.now) then t.(halt := Raised)
    else t.(books := t.books.(items := t.books.items[k := row]),
            lateRows := t.lateRows + if Due(env.cancelAt, w.now) then 1 else 0)
  }

  // ---------------------------------------------------------------- one message

  /** A retried call without side effects, up to its last try. */
  function RetriedCall(env: Env, w: World, failures: nat): World {
    Tick(env, Gate(env, Tries(env, StartCall(env, w), failures)))
  }

  function FetchCall(env: Env, w: World): World {
    var t, raw := RetriedCall(env, w, env.fetch(w.now).failures), env.fetch(w.now).raw;
    if t.halt.Going? && (raw.None? || raw.value == []) then t.(halt := Raised) else t
  }

  function Accept(w: World, k: ItemKey): World {
    w.(books := w.books.(accepted := w.books.accepted + multiset{k}))
  }

  function Lose(w: World, k: ItemKey): World {
    w.(books := w.books.(lost := w.books.lost + multiset{k}))
  }

  function ImportTries(env: Env, w: World, k: ItemKey, failures: seq<bool>): World
    decreases |failures|
  {
    if failures == [] then w
    else
      var t := Tick(env, Gate(env, w));
      var t' := if t.halt.Going? && failures[0] then Lose(Accept(t, k), k) else t;
      ImportTries(env, t', k, failures[1..])
  }

  /** Up to and including the acknowledged acceptance, or an exception. */
  function ImportCall(env: Env, w: World, k: ItemKey): World {
    var imp := env.import_(w.now);
    var t := Tick(env, Gate(env, ImportTries(env, StartCall(env, w), k, imp.failures)));
    if !t.halt.Going? then t else if imp.acked then Accept(t, k) else t.(halt := Raised)
  }

  /** Recording an acknowledged import; if the row does not get there, the acceptance is lost. */
  function Record(env: Env, w: World, k: ItemKey, row: ItemRow, size: nat): World {
    var t := WriteRow(env, w, k, row);
    if t.halt.Going? then t.(tally := t.tally.(synced := t.tally.synced + 1, bytes := t.tally.bytes + size))
    else Lose(t, k)
  }

  /** The try block of the streaming loop. */
  function Stream(env: Env, w: World, e: Entry): World {
    var f := FetchCall(env, w);
    if !f.halt.Going? then f
    else
      var i := ImportCall(env, f, Key(env, e));
      if !i.halt.Going? then i
      else
        var raw := env.fetch(w.now).raw.value;
        Record(env, i, Key(env, e),
               ItemRow(SYNCED, env.import_(f.now).destination, Some(env.digest(raw)), None), |raw|)
  }

  function CountFailed(w: World): World {
    w.(tally := w.tally.(failed := w.tally.failed + 1))
  }

  /** The except block: it catches every exception, a cancellation included. */
  function Handle(env: Env, w: World, k: ItemKey): World {
    if !w.halt.Raised? then w
    else WriteRow(env, CountFailed(w.(halt := Going)), k, ItemRow(FAILED, None, None, Some("error")))
  }

  function Oversize(env: Env, w: World, k: ItemKey): World {
    var t := WriteRow(env, w, k,
                      ItemRow(FAILED_SIZE_EXCEEDED, None, None, Some("Message size exceeds 25MB limit")));
    if t.halt.Going? then CountFailed(t) else t
  }

  function Message(env: Env, w: World, e: Entry, dry: bool): World {
    var g := Gate(env, w);
    if !g.halt.Going? then g
    else
      var v := g.(visited := g.visited + [e]);
      if Synced(v.books.items, Key(env, e)) then v.(tally := v.tally.(skipped := v.tally.skipped + 1))
      else if dry then v.(tally := v.tally.(synced := v.tally.synced + 1, bytes := v.tally.bytes + e.size))
      else if e.size > MAX_MESSAGE_SIZE then Oversize(env, v, Key(env, e))
      else Handle(env, Stream(env, v, e), Key(env, e))
  }

  // ---------------------------------------------------------------- pages, folders, mailbox

  function WithIds(entries: seq<Entry>): seq<Entry> {
    if entries == [] then []
    else (if entries[0].id != "" then [entries[0]] else []) + WithIds(entries[1..])
  }

  /** What list_folder_messages returns for a page: the slice, less the entries without an id. */
  function PageAt(source: seq<Entry>, start: nat): seq<Entry>
    requires start >= 1
  {
    if start > |source| then []
    else WithIds(source[start - 1..if start - 1 + LIMIT <= |source| then start - 1 + LIMIT else |source|])
  }

  /** The gate before a page and the listing call, before anything is caught. */
  function ListCall(env: Env, w: World): World {
    var g := Gate(env, w);
    if !g.halt.Going? then g
    else
      var t := RetriedCall(env, g, env.listFailures(g.now));
      // whatever the call raised is caught by the loop, which then ends the folder
      if t.halt.Raised? then t.(halt := Going) else t
  }

  /** The listing call came back with an answer rather than an exception. */
  predicate Listed(env: Env, w: World) {
    var g := Gate(env, w);
    g.halt.Going? && RetriedCall(env, g, env.listFailures(g.now)).halt.Going?
  }

  function Page(env: Env, w: World, page: seq<Entry>, dry: bool): World
    decreases |page|
  {
    if page == [] then w else Page(env, Message(env, w, page[0], dry), page[1..], dry)
  }

  /** The messages of a folder that have not been paged yet. */
  function Unpaged(source: seq<Entry>, start: nat): nat {
    if start <= |source| then |source| - start + 1 else 0
  }

  function Folder(env: Env, w: World, index: nat, source: seq<Entry>, start: nat, dry: bool): World
    requires start >= 1
    decreases Unpaged(source, start)
  {
    var c := ListCall(env, w);
    var page := PageAt(source, start);
    if !Listed(env, w) || env.listing(index, start) != Served || page == [] then c
    else
      var p := Page(env, c, page, dry);
      if !p.halt.Going? || |page| < LIMIT then p
      else Folder(env, p, index, source, start + LIMIT, dry)
  }

  function StreamFolders(env: Env, w: World, sources: seq<seq<Entry>>, index: nat, dry: bool): World
    requires index <= |sources|
    decreases |sources| - index
  {
    if index == |sources| then w
    else
      var g := Gate(env, w);
      StreamFolders(env, if g.halt.Going? then Folder(env, g, index, sources[index], 1, dry) else g,
              sources, index + 1, dry)
  }

  /** A new run starts from what is durable: the rows, and what Gmail holds; the clock goes on. */
  function Fresh(w: World): World {
    World(w.books, w.now, Going, Tally(0, 0, 0, 0), 0, 0, 0, [])
  }

  // ---------------------------------------------------------------- the labels of the folders

  const SYSTEM_FOLDERS: map<string, string> := map[
    "inbox" := "INBOX", "sent" := "SENT", "sent items" := "SENT", "drafts" := "DRAFT", "trash" := "TRASH",
    "deleted items" := "TRASH", "spam" := "SPAM", "junk" := "SPAM", "starred" := "STARRED", "important" := "IMPORTANT"]

  /** The folder's own label, from the table, or else from the answer Google gave at instant `at`. */
  function SettleLabel(env: Env, w: World, f: MailFolder, answer: Option<string>, saved: bool, at: nat): (World, string) {
    var (b, labelId) := LookupOrCreate(LabelsOf(w.books), FolderKey(Norm(env.email), f.id), f.name, answer, saved);
    var late := b.created != w.books.created && Due(env.cancelAt, at);
    (w.(books := w.books.(folders := b.folders, created := b.created),
        lateLabels := w.lateLabels + if late then 1 else 0), labelId)
  }

  /** Before the stream: the label of one folder.  Two ticks, so that a crash can come between creating and saving. */
  function LabelFolder(env: Env, w: World, f: MailFolder, dry: bool): (World, string) {
    if Norm(f.name) in SYSTEM_FOLDERS then (w, SYSTEM_FOLDERS[Norm(f.name)])
    else if dry then (w, "LABEL_" + f.name)
    else
      var asked := Tick(env, w);
      var end := Tick(env, asked);
      if !asked.halt.Going? then (asked, "INBOX")
      else SettleLabel(env, end, f, env.ensureLabel(w.now), end.halt.Going? && env.saveMapping(asked.now), w.now)
  }

  function LabelFolders(env: Env, w: World, folders: seq<MailFolder>, dry: bool): (World, seq<string>) {
    if folders == [] then (w, [])
    else
      var (before, labels) := LabelFolders(env, w, folders[..|folders| - 1], dry);
      var (after, labelId) := LabelFolder(env, before, folders[|folders| - 1], dry);
      (after, labels + [labelId])
  }

  /** A new run once its folders have their labels. */
  function Labelled(env: Env, w: World, dry: bool): World {
    LabelFolders(env, Fresh(w), env.mailFolders, dry).0
  }

  function Run(env: Env, w: World, sources: seq<seq<Entry>>, dry: bool): World {
    StreamFolders(env, Labelled(env, w, dry), sources, 0, dry)
  }

  // ---------------------------------------------------------------- a run as a list of operations

  /** The messages the page loop hands out, given the part of the source that has not been paged. */
  function Visits(rest: seq<Entry>): seq<Entry>
    decreases |rest|
  {
    if |rest| <= LIMIT then WithIds(rest)
    else
      var page := WithIds(rest[..LIMIT]);
      if |page| < LIMIT then page else page + Visits(rest[LIMIT..])
  }

  function AllVisits(sources: seq<seq<Entry>>): seq<Entry> {
    if sources == [] then [] else Visits(sources[0]) + AllVisits(sources[1..])
  }

  lemma PageOfRest(source: seq<Entry>, start: nat)
    requires start >= 1
    ensures var rest := Rest(source, start);
      PageAt(source, start) == WithIds(if |rest| <= LIMIT then rest else rest[..LIMIT])
  {
    if start <= |source| {
      var rest := source[start - 1..];
      if |rest| > LIMIT {
        assert rest[..LIMIT] == source[start - 1..start - 1 + LIMIT];
      } else {
        assert source[start - 1..if start - 1 + LIMIT <= |source| then start - 1 + LIMIT else |source|] == rest;
      }
    }
  }

  function Rest(source: seq<Entry>, start: nat): seq<Entry>
    requires start >= 1
  {
    if start <= |source| then source[start - 1..] else []
  }

  lemma {:induction false} WithIdsShort(entries: seq<Entry>)
    ensures |WithIds(entries)| <= |entries|
    ensures |WithIds(entries)| == |entries| <==> forall e | e in entries :: e.id != ""
    ensures WithIds(entries) == [] <==> forall e | e in entries :: e.id == ""
  {
    if entries != [] {
      WithIdsShort(entries[1..]);
      assert forall e :: e in entries <==> e == entries[0] || e in entries[1..];
    }
  }

  /** One turn of the page loop: the page, and the rest if the page was full. */
  lemma VisitsStep(source: seq<Entry>, start: nat)
    requires start >= 1
    ensures var page := PageAt(source, start);
      Visits(Rest(source, start)) == page + if |page| < LIMIT then [] else Visits(Rest(source, start + LIMIT))
  {
    PageOfRest(source, start);
    var rest, page := Rest(source, start), PageAt(source, start);
    WithIdsShort(if |rest| <= LIMIT then rest else rest[..LIMIT]);
    if |rest| > LIMIT {
      assert rest[LIMIT..] == Rest(source, start + LIMIT);
    } else if |page| == LIMIT {
      assert Rest(source, start + LIMIT) == [];
    }
  }

  /** The operations a run is made of; each begins at a gate. */
  datatype Op = AtGate | AList | AMessage(e: Entry)

  function Apply(env: Env, w: World, op: Op, dry: bool): World {
    match op
    case AtGate => Gate(env, w)
    case AList => ListCall(env, w)
    case AMessage(e) => Message(env, w, e, dry)
  }

  function Exec(env: Env, w: World, ops: seq<Op>, dry: bool): World
    decreases |ops|
  {
    if ops == [] then w else Exec(env, Apply(env, w, ops[0], dry), ops[1..], dry)
  }

  lemma {:induction false} ExecAppend(env: Env, w: World, a: seq<Op>, b: seq<Op>, dry: bool)
    ensures Exec(env, w, a + b, dry) == Exec(env, Exec(env, w, a, dry), b, dry)
    decreases |a|
  {
    if a == [] {
      assert a + b == b;
    } else {
      assert (a + b)[1..] == a[1..] + b;
      ExecAppend(env, Apply(env, w, a[0], dry), a[1..], b, dry);
    }
  }

  lemma {:induction false} PageOps(env: Env, w: World, page: seq<Entry>, dry: bool) returns (ops: seq<Op>)
    ensures Page(env, w, page, dry) == Exec(env, w, ops, dry)
    ensures ops == seq(|page|, i requires 0 <= i < |page| => AMessage(page[i]))
    decreases |page|
  {
    ops := seq(|page|, i requires 0 <= i < |page| => AMessage(page[i]));
    if page != [] {
      var rest := PageOps(env, Message(env, w, page[0], dry), page[1..], dry);
      assert ops == [AMessage(page[0])] + rest;
    }
  }

  lemma OneOp(env: Env, w: World, op: Op, dry: bool)
    ensures Exec(env, w, [op], dry) == Apply(env, w, op, dry)
  {
  }

  ghost predicate Within(ops: seq<Op>, entries: seq<Entry>) {
    forall op | op in ops && op.AMessage? :: op.e in entries
  }

  lemma {:induction false} FolderOps(env: Env, w: World, index: nat, source: seq<Entry>, start: nat, dry: bool)
      returns (ops: seq<Op>)
    requires start >= 1
    ensures Folder(env, w, index, source, start, dry) == Exec(env, w, ops, dry)
    ensures Within(ops, Visits(Rest(source, start)))
    decreases Unpaged(source, start)
  {
    var c, page := ListCall(env, w), PageAt(source, start);
    OneOp(env, w, AList, dry);
    VisitsStep(source, start);
    if !Listed(env, w) || env.listing(index, start) != Served || page == [] {
      ops := [AList];
    } else {
      var p := Page(env, c, page, dry);
      var more := PageOps(env, c, page, dry);
      var rest := [];
      if p.halt.Going? && |page| >= LIMIT {
        rest := FolderOps(env, p, index, source, start + LIMIT, dry);
      }
      ExecAppend(env, c, more, rest, dry);
      ExecAppend(env, w, [AList], more + rest, dry);
      ops := [AList] + (more + rest);
    }
  }

  /** Every run is some list of operations, so what each operation keeps, every run keeps. */
  lemma {:induction false} FoldersOps(env: Env, w: World, sources: seq<seq<Entry>>, index: nat, dry: bool)
      returns (ops: seq<Op>)
    requires index <= |sources|
    ensures StreamFolders(env, w, sources, index, dry) == Exec(env, w, ops, dry)
    ensures Within(ops, AllVisits(sources[index..]))
    decreases |sources| - index
  {
    if index == |sources| {
      ops := [];
    } else {
      var g := Gate(env, w);
      OneOp(env, w, AtGate, dry);
      var more, w' := [], g;
      if g.halt.Going? {
        more := FolderOps(env, g, index, sources[index], 1, dry);
        assert Rest(sources[index], 1) == sources[index];
        w' := Folder(env, g, index, sources[index], 1, dry);
      }
      var rest := FoldersOps(env, w', sources, index + 1, dry);
      assert sources[index..][1..] == sources[index + 1..];
      ExecAppend(env, g, more, rest, dry);
      ExecAppend(env, w, [AtGate], more + rest, dry);
      ops := [AtGate] + (more + rest);
    }
  }
}
