/** What the operations on a document do to its fields, and what they come to one after the other. */
module DocumentEdits {
  import opened Lists
  import opened Documents

  // One operation

  /** What an operation leaves in the content: an append adds at the end, a clear leaves nothing, and a plain write puts
      its own; the others do not touch it. */
  function ContentBy(content: string, edit: Edit): string {
    match edit
    case Append(text) => content + text
    case Clear => ""
    case Replace(doc) => doc.content
    case Rename(_) | Archive(_) | AddMetadata(_) => content
  }

  function NameBy(name: string, edit: Edit): string {
    match edit
    case Rename(name') => name'
    case Replace(doc) => doc.name
    case Append(_) | Archive(_) | Clear | AddMetadata(_) => name
  }

  function ArchivedBy(archived: bool, edit: Edit): bool {
    match edit
    case Archive(archived') => archived'
    case Replace(doc) => doc.archived
    case Append(_) | Rename(_) | Clear | AddMetadata(_) => archived
  }

  function TagsBy(tags: seq<string>, edit: Edit): seq<string> {
    if edit.Replace? then edit.doc.tags else tags
  }

  /** The entry of a key: the new one where the operation brings one, otherwise the old one. */
  function EntryBy(metadata: map<string, string>, edit: Edit, key: string): Option<string> {
    var new' := match edit
      case AddMetadata(added) => added
      case Replace(doc) => doc.metadata
      case Append(_) | Rename(_) | Archive(_) | Clear => map[];
    if key in new' then Some(new'[key])
    else if edit.Replace? || key !in metadata then None
    else Some(metadata[key])
  }

  function Entry(metadata: map<string, string>, key: string): Option<string> {
    if key in metadata then Some(metadata[key]) else None
  }

  /** The row after a commit, field by field. */
  ghost predicate Follows(row: Document, edit: Edit, now: int, row': Document) {
    && row'.content == ContentBy(row.content, edit) && row'.name == NameBy(row.name, edit)
    && row'.archived == ArchivedBy(row.archived, edit) && row'.tags == TagsBy(row.tags, edit)
    && (forall key :: Entry(row'.metadata, key) == EntryBy(row.metadata, edit, key))
    && row'.updatedAt == now
    && row'.id == row.id && row'.workspaceID == row.workspaceID && row'.createdAt == row.createdAt
  }

  /** Each operation sets its own field and leaves every other one, apart from the revision and the time of the update. */
  lemma EffectFollows(row: Document, edit: Edit, now: int)
    ensures Follows(row, edit, now, Effect(row, edit, now))
    ensures !edit.Replace? && row.revision != -1 ==> Effect(row, edit, now).revision == row.revision + 1
  {
  }

  /** So a commit in the midst of other calls changes the row as it stands by then, field by field, and raises its revision
      by one. */
  lemma CommitFollows(w: World, c: nat, id: string)
    requires Inv(w, id) && c in w.flights && w.flights[c].checked && w.flights[c].doc.id == id
    requires Affects(w.table, w.flights[c].doc)
    ensures var w', f := Apply(w, Store(c)), w.flights[c];
            && id in w'.table && Follows(w.table[id], f.edit, f.now, w'.table[id])
            && w'.table[id].revision == w.table[id].revision + 1
            && forall k :: k != id ==> (k in w'.table <==> k in w.table) && (k in w.table ==> w'.table[k] == w.table[k])
  {
    StoreOnDocument(w, c, id);
    EffectFollows(w.table[id], w.flights[c].edit, w.flights[c].now);
  }

  /** The check before the upsert refuses nothing that the upsert would accept. */
  lemma CheckIsRedundant(t: Table, doc: Document)
    requires Affects(t, doc)
    ensures PassesCheck(t, doc)
  {
  }

  /** When an uninterrupted write succeeds: the name is free in the workspace, and the id is new or its stored revision
      is the one before that of the document, where a document without a revision counts as the first. */
  lemma WriteSucceedsExactlyWhen(t: Table, doc: Document, now: int)
    ensures var revision := if doc.revision == 0 then 1 else doc.revision;
            PassesCheck(t, Stamped(doc, now)) && Affects(t, Stamped(doc, now)) <==>
              && (forall k :: k in t && k != doc.id && t[k].workspaceID == doc.workspaceID ==> t[k].name != doc.name)
              && (doc.id in t ==>
                    && t[doc.id].revision == revision - 1
                    && forall k :: k in t && k != doc.id && t[k].workspaceID == t[doc.id].workspaceID ==> t[k].name != doc.name)
  {
  }

  /** A document written under a new id is stored as it is, apart from its times and a first revision. */
  lemma NewRow(t: Table, doc: Document, now: int)
    requires doc.id !in t && Affects(t, Stamped(doc, now))
    ensures Upsert(t, Stamped(doc, now)) ==
            t[doc.id := doc.(createdAt := if doc.createdAt == 0 then now else doc.createdAt, updatedAt := now,
                             revision := if doc.revision == 0 then 1 else doc.revision)]
  {
  }

  // One after the other

  /** The content of a document after these operations: what was written or left last, and what was appended since. */
  function ContentAfter(content: string, commits: seq<Commit>): string {
    if commits == [] then content
    else ContentBy(ContentAfter(content, commits[..|commits| - 1]), commits[|commits| - 1].edit)
  }

  function NameAfter(name: string, commits: seq<Commit>): string {
    if commits == [] then name else NameBy(NameAfter(name, commits[..|commits| - 1]), commits[|commits| - 1].edit)
  }

  function ArchivedAfter(archived: bool, commits: seq<Commit>): bool {
    if commits == [] then archived else ArchivedBy(ArchivedAfter(archived, commits[..|commits| - 1]), commits[|commits| - 1].edit)
  }

  lemma {:induction false} SequenceFollows(row: Document, commits: seq<Commit>)
    ensures var end := Sequentially(row, commits);
            && end.content == ContentAfter(row.content, commits)
            && end.name == NameAfter(row.name, commits)
            && end.archived == ArchivedAfter(row.archived, commits)
            && end.id == row.id && end.workspaceID == row.workspaceID && end.createdAt == row.createdAt
  {
    if commits != [] {
      var c := commits[|commits| - 1];
      SequenceFollows(row, commits[..|commits| - 1]);
      EffectFollows(Sequentially(row, commits[..|commits| - 1]), c.edit, c.now);
    }
  }

  /** For any interleaving without deletion, a document ends with the content, the name and the archive mark that its
      committed operations give in commit order. */
  lemma FieldsSerialise(w: World, steps: seq<Step>, id: string)
    requires Keyed(w.table) && RowInv(w.table, id) && id in w.table && w.flights == map[] && w.log == []
    requires forall i :: 0 <= i < |steps| ==> steps[i].Delete? ==> steps[i].id != id
    ensures var end := Exec(w, steps);
            var commits, row := CommitsOn(end.log, id), w.table[id];
            && id in end.table
            && end.table[id].content == ContentAfter(row.content, commits)
            && end.table[id].name == NameAfter(row.name, commits)
            && end.table[id].archived == ArchivedAfter(row.archived, commits)
  {
    WritesSerialise(w, steps, id);
    SequenceFollows(w.table[id], CommitsOn(Exec(w, steps).log, id));
  }

  predicate OnlyAppends(commits: seq<Commit>) {
    forall i :: 0 <= i < |commits| ==> commits[i].edit.Append?
  }

  function TextOf(c: Commit): string {
    if c.edit.Append? then c.edit.text else ""
  }

  /** The appended texts in commit order. */
  function Appended(commits: seq<Commit>): string {
    if commits == [] then "" else TextOf(commits[0]) + Appended(commits[1..])
  }

  lemma {:induction false} AppendedSnoc(commits: seq<Commit>, last: Commit)
    ensures Appended(commits + [last]) == Appended(commits) + TextOf(last)
  {
    if commits == [] {
      assert [last][1..] == [];
    } else {
      AppendedSnoc(commits[1..], last);
      assert (commits + [last])[1..] == commits[1..] + [last];
    }
  }

  lemma {:induction false} AppendsAddUp(content: string, commits: seq<Commit>)
    requires OnlyAppends(commits)
    ensures ContentAfter(content, commits) == content + Appended(commits)
  {
    if commits == [] {
      assert content + "" == content;
    } else {
      var init, last := commits[..|commits| - 1], commits[|commits| - 1];
      AppendsAddUp(content, init);
      AppendedSnoc(init, last);
      assert commits == init + [last];
    }
  }

  /** No append is lost and none comes twice: a document to which only appends were committed holds its old content
      followed by every committed text, in commit order, whoever appended and however the calls interleaved. */
  lemma AppendsSerialise(w: World, steps: seq<Step>, id: string)
    requires Keyed(w.table) && RowInv(w.table, id) && id in w.table && w.flights == map[] && w.log == []
    requires forall i :: 0 <= i < |steps| ==> steps[i].Delete? ==> steps[i].id != id
    requires OnlyAppends(CommitsOn(Exec(w, steps).log, id))
    ensures id in Exec(w, steps).table
    ensures Exec(w, steps).table[id].content == w.table[id].content + Appended(CommitsOn(Exec(w, steps).log, id))
  {
    FieldsSerialise(w, steps, id);
    AppendsAddUp(w.table[id].content, CommitsOn(Exec(w, steps).log, id));
  }
}
