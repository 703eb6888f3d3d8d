/** Folder labels: look one up in the checkpoint, or have Google create it and remember it. */
module Labels {
  import opened Prelude
  import opened Checkpoint

  /** The folders table, and the history of the labels created at Google. */
  datatype Labels = Labels(folders: Folders, created: multiset<FolderKey>)

  predicate Mapped(folders: Folders, k: FolderKey) {
    k in folders && folders[k].labelId != ""
  }

  /** `answer` is the id of the label Google creates, or None for an error; `saved` says whether the row gets written. */
  function LookupOrCreate(b: Labels, k: FolderKey, name: string, answer: Option<string>, saved: bool): (Labels, string) {
    if Mapped(b.folders, k) then (b, b.folders[k].labelId)
    else if answer.None? then (b, "INBOX")
    else
      var made := b.(created := b.created + multiset{k});
      if saved then (made.(folders := b.folders[k := FolderRow(name, answer.value)]), answer.value)
      else (made, "INBOX")
  }

  /** A mapped folder keeps its row and is never created again; whatever else is created was not mapped. */
  ghost predicate Kept(b: Labels, b': Labels) {
    forall k | Mapped(b.folders, k) ::
      k in b'.folders && b'.folders[k] == b.folders[k] && b'.created[k] == b.created[k]
  }

  /** The folders created are the ones newly mapped, each created once. */
  ghost predicate CreatedOnce(b: Labels, b': Labels) {
    forall k :: b'.created[k] + Bit(Mapped(b.folders, k)) == b.created[k] + Bit(Mapped(b'.folders, k))
  }

  lemma LookupKeeps(b: Labels, k: FolderKey, name: string, answer: Option<string>, saved: bool)
    ensures Kept(b, LookupOrCreate(b, k, name, answer, saved).0)
    ensures saved && answer != Some("") ==> CreatedOnce(b, LookupOrCreate(b, k, name, answer, saved).0)
  {
  }
}
