/** The checkpoint tables: keyed rows that are inserted or replaced, and looked up by normalised e-mail. */
module Checkpoint {
  import opened Prelude

  datatype Entity = EMAIL | MAIL

  datatype Status = SYNCED | FAILED | FAILED_SIZE_EXCEEDED

  datatype ItemKey = ItemKey(entity: Entity, sourceId: string, user: string)

  datatype ItemRow = ItemRow(status: Status, destination: Option<string>, checksum: Option<string>, error: Option<string>)

  datatype FolderKey = FolderKey(user: string, folder: string)

  datatype FolderRow = FolderRow(name: string, labelId: string)

  type Items = map<ItemKey, ItemRow>
  type Folders = map<FolderKey, FolderRow>

  // ---------------------------------------------------------------- lower().strip() over ASCII

  function LowerChar(c: char): char {
    if 'A' <= c <= 'Z' then c - 'A' + 'a' else c
  }

  function Lower(s: string): string {
    seq(|s|, i requires 0 <= i < |s| => LowerChar(s[i]))
  }

  predicate IsSpace(c: char) {
    c == ' ' || '\t' <= c <= '\r' || '\U{1c}' <= c <= '\U{1f}'
  }

  function StripLeft(s: string): string {
    if s != [] && IsSpace(s[0]) then StripLeft(s[1..]) else s
  }

  function StripRight(s: string): string {
    if s != [] && IsSpace(s[|s| - 1]) then StripRight(s[..|s| - 1]) else s
  }

  function Norm(email: string): string {
    StripRight(StripLeft(Lower(email)))
  }

  predicate IsNorm(s: string) {
    && (forall i | 0 <= i < |s| :: LowerChar(s[i]) == s[i])
    && (s != [] ==> !IsSpace(s[0]) && !IsSpace(s[|s| - 1]))
  }

  lemma {:induction false} StripLeftKeeps(s: string)
    requires forall i | 0 <= i < |s| :: LowerChar(s[i]) == s[i]
    ensures var r := StripLeft(s);
      && (forall i | 0 <= i < |r| :: LowerChar(r[i]) == r[i])
      && (r != [] ==> !IsSpace(r[0]))
  {
    if s != [] && IsSpace(s[0]) { StripLeftKeeps(s[1..]); }
  }

  lemma {:induction false} StripRightKeeps(s: string)
    requires forall i | 0 <= i < |s| :: LowerChar(s[i]) == s[i]
    requires s != [] ==> !IsSpace(s[0])
    ensures IsNorm(StripRight(s))
  {
    if s != [] && IsSpace(s[|s| - 1]) { StripRightKeeps(s[..|s| - 1]); }
  }

  /** A normalised address has no upper case and no blank at either end, and is its own normal form. */
  lemma NormIsNormal(email: string)
    ensures IsNorm(Norm(email)) && Norm(Norm(email)) == Norm(email)
  {
    StripLeftKeeps(Lower(email));
    StripRightKeeps(StripLeft(Lower(email)));
    var n := Norm(email);
    assert Lower(n) == n;
  }

  lemma {:induction false} StripLeftDrops(s: string) returns (i: nat)
    ensures i <= |s| && StripLeft(s) == s[i..] && forall k | 0 <= k < i :: IsSpace(s[k])
  {
    i := 0;
    if s != [] && IsSpace(s[0]) {
      var i' := StripLeftDrops(s[1..]);
      i := i' + 1;
      assert forall k | 1 <= k < i :: s[k] == s[1..][k - 1];
    }
  }

  lemma {:induction false} StripRightDrops(s: string) returns (j: nat)
    ensures j <= |s| && StripRight(s) == s[..j] && forall k | j <= k < |s| :: IsSpace(s[k])
  {
    j := |s|;
    if s != [] && IsSpace(s[|s| - 1]) {
      j := StripRightDrops(s[..|s| - 1]);
      assert forall k | j <= k < |s| - 1 :: s[k] == s[..|s| - 1][k];
    }
  }

  /** Nothing is lost but the blanks around the address and the case of its letters. */
  lemma NormIsSlice(email: string) returns (i: nat, j: nat)
    ensures i <= j <= |email| && |Norm(email)| == j - i
    ensures forall k | 0 <= k < |email| && !(i <= k < j) :: IsSpace(email[k])
    ensures forall k | i <= k < j ::
              Norm(email)[k - i] as int == email[k] as int + if 'A' <= email[k] <= 'Z' then 32 else 0
    ensures Norm(email) != [] ==> !IsSpace(email[i]) && !IsSpace(email[j - 1])
  {
    i := StripLeftDrops(Lower(email));
    var s := StripLeft(Lower(email));
    var n := StripRightDrops(s);
    j := i + n;
    assert forall k | 0 <= k < |s| :: s[k] == Lower(email)[i + k];
    StripLeftKeeps(Lower(email));
    StripRightKeeps(s);
    forall k | 0 <= k < |email| && !(i <= k < j) ensures IsSpace(email[k]) {
      assert IsSpace(Lower(email)[k]) by { if k >= j { assert Lower(email)[k] == s[k - i]; } }
    }
  }

  // ---------------------------------------------------------------- the store

  predicate Synced(items: Items, k: ItemKey) {
    k in items && items[k].status == SYNCED
  }

  function KeyOf(entity: Entity, sourceId: string, email: string): ItemKey {
    ItemKey(entity, sourceId, Norm(email))
  }

  class CheckpointStore {
    var items: Items
    var folders: Folders

    /** Opening a database keeps the rows it has; a new one has none. */
    constructor (items: Items, folders: Folders)
      ensures this.items == items && this.folders == folders
    {
      this.items, this.folders := items, folders;
    }

    method IsItemSynced(entity: Entity, sourceId: string, email: string) returns (yes: bool)
      ensures yes == Synced(items, KeyOf(entity, sourceId, email))
      ensures var k := ItemKey(entity, sourceId, Norm(email)); yes <==> k in items && items[k].status == SYNCED
    {
      var key := KeyOf(entity, sourceId, email);
      yes := key in items && items[key].status == SYNCED;
    }

    method RecordItemSync(entity: Entity, sourceId: string, email: string, row: ItemRow)
      modifies this`items
      ensures items == old(items)[ItemKey(entity, sourceId, Norm(email)) := row]
    {
      items := items[KeyOf(entity, sourceId, email) := row];
    }

    method GetGoogleLabelId(email: string, folder: string) returns (found: Option<string>)
      ensures found == LabelOf(folders, email, folder)
    {
      var key := FolderKey(Norm(email), folder);
      if key in folders { found := Some(folders[key].labelId); } else { found := None; }
    }

    method SaveFolderMapping(email: string, folder: string, name: string, labelId: string)
      modifies this`folders
      ensures folders == old(folders)[FolderKey(Norm(email), folder) := FolderRow(name, labelId)]
    {
      folders := folders[FolderKey(Norm(email), folder) := FolderRow(name, labelId)];
    }
  }

  function LabelOf(folders: Folders, email: string, folder: string): Option<string> {
    var key := FolderKey(Norm(email), folder);
    if key in folders then Some(folders[key].labelId) else None
  }

  /** Two requests speak of the same row exactly when entity, id and normalised address are the same. */
  lemma KeysApart(a: Entity, i: string, e: string, b: Entity, j: string, f: string)
    ensures KeyOf(a, i, e) == KeyOf(b, j, f) <==> a == b && i == j && Norm(e) == Norm(f)
  {
  }

  /** What is asked after a row has been recorded: its own status for its own item, for any other what it was. */
  lemma AskedAfterRecord(items: Items, a: Entity, i: string, e: string, row: ItemRow, b: Entity, j: string, f: string)
    ensures var after := items[KeyOf(a, i, e) := row];
      Synced(after, KeyOf(b, j, f)) ==
        if a == b && i == j && Norm(e) == Norm(f) then row.status == SYNCED else Synced(items, KeyOf(b, j, f))
  {
    KeysApart(a, i, e, b, j, f);
  }

  /**
   A row recorded under one spelling of an address is found under another exactly when the two
   have the same normal form; the normal form itself is always such a spelling.
   */
  lemma RecordedUnderAnySpelling(items: Items, entity: Entity, id: string, email: string, other: string, row: ItemRow)
    requires !Synced(items, KeyOf(entity, id, other)) && row.status == SYNCED
    ensures Synced(items[KeyOf(entity, id, email) := row], KeyOf(entity, id, other)) <==> Norm(email) == Norm(other)
    ensures KeyOf(entity, id, Norm(email)) == KeyOf(entity, id, email)
  {
    NormIsNormal(email);
  }
}
