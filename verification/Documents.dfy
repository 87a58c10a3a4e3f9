/** The documents table of the workspace store: optimistic writes by revision, with callers
    interleaving between SQL statements. */
module Documents {
  import opened Lists

  datatype Document = Document(
    id: string, workspaceID: string, name: string, content: string, revision: int, tags: seq<string>,
    metadata: map<string, string>, archived: bool, createdAt: int, updatedAt: int)

  type Table = map<string, Document>

  // Statements

  /** SELECT ... WHERE workspace_id = ? AND id = ? */
  function Select(t: Table, workspaceID: string, id: string): Option<Document> {
    if id in t && t[id].workspaceID == workspaceID then Some(t[id]) else None
  }

  /** Another row already has this name in the workspace (UNIQUE(workspace_id, name)). */
  predicate NameTaken(t: Table, id: string, workspaceID: string, name: string) {
    exists k :: k in t && k != id && t[k].workspaceID == workspaceID && t[k].name == name
  }

  /** The row after the DO UPDATE branch: the workspace and the creation time keep their old values. */
  function Written(row: Document, doc: Document): Document {
    doc.(id := row.id, workspaceID := row.workspaceID, createdAt := row.createdAt)
  }

  /** The upsert affects a row when the id is new, or when the stored revision is the one before. */
  predicate Affects(t: Table, doc: Document) {
    if doc.id in t then
      && t[doc.id].revision == doc.revision - 1
      && !NameTaken(t, doc.id, t[doc.id].workspaceID, doc.name) && !NameTaken(t, doc.id, doc.workspaceID, doc.name)
    else !NameTaken(t, doc.id, doc.workspaceID, doc.name)
  }

  function Upsert(t: Table, doc: Document): Table {
    if !Affects(t, doc) then t
    else if doc.id in t then t[doc.id := Written(t[doc.id], doc)]
    else t[doc.id := doc]
  }

  /** The revision check WriteDocument makes before the upsert. */
  predicate PassesCheck(t: Table, doc: Document) {
    doc.revision > 1 ==>
      var row := Select(t, doc.workspaceID, doc.id);
      row.Some? ==> row.value.revision == doc.revision - 1
  }

  // Operations

  datatype Edit =
    | Append(text: string)
    | Rename(name: string)
    | Archive(archived: bool)
    | Clear
    | AddMetadata(metadata: map<string, string>)
    | Replace(doc: Document)

  /** What each read-modify-write caller hands to WriteDocument. */
  function Edited(doc: Document, edit: Edit): Document {
    match edit
    case Append(text) => doc.(content := doc.content + text, revision := doc.revision + 1)
    case Rename(name) => doc.(name := name, revision := doc.revision + 1)
    case Archive(archived) => doc.(archived := archived, revision := doc.revision + 1)
    case Clear => doc.(content := "", revision := doc.revision + 1)
    case AddMetadata(metadata) => doc.(metadata := doc.metadata + metadata, revision := doc.revision + 1)
    case Replace(d) => d
  }

  /** WriteDocument's normalisation of its argument. */
  function Stamped(doc: Document, now: int): Document {
    doc.(createdAt := if doc.createdAt == 0 then now else doc.createdAt, updatedAt := now,
         revision := if doc.revision == 0 then 1 else doc.revision)
  }

  /** The effect of an operation performed on its own, without interleaving. */
  function Effect(row: Document, edit: Edit, now: int): Document {
    Written(row, Stamped(Edited(row, edit), now))
  }

  // Interleavings

  /** A call to WriteDocument in flight: the row it was computed from (None for a document supplied by
      the caller), the document to store, and whether the revision check has been passed. */
  datatype Flight = Flight(read: Option<Document>, edit: Edit, now: int, doc: Document, checked: bool)

  datatype Commit = Commit(id: string, edit: Edit, now: int)

  /** The table, the calls in flight, and the commits so far, in order. */
  datatype World = World(table: Table, flights: map<nat, Flight>, log: seq<Commit>)

  datatype Step =
    | Read(caller: nat, workspaceID: string, id: string, edit: Edit, now: int)
    | Put(caller: nat, doc: Document, now: int)
    | Check(caller: nat)
    | Store(caller: nat)
    | Delete(workspaceID: string, id: string)

  function Apply(w: World, step: Step): World {
    match step
    case Read(c, workspaceID, id, edit, now) =>
      var row := Select(w.table, workspaceID, id);
      if row.None? || edit.Replace? then w
      else w.(flights := w.flights[c := Flight(row, edit, now, Stamped(Edited(row.value, edit), now), false)])
    case Put(c, doc, now) =>
      w.(flights := w.flights[c := Flight(None, Replace(doc), now, Stamped(doc, now), false)])
    case Check(c) =>
      if c !in w.flights then w
      else if PassesCheck(w.table, w.flights[c].doc) then w.(flights := w.flights[c := w.flights[c].(checked := true)])
      else w.(flights := w.flights - {c})
    case Store(c) =>
      if c !in w.flights || !w.flights[c].checked then w
      else
        var f := w.flights[c];
        World(Upsert(w.table, f.doc), w.flights - {c},
              if Affects(w.table, f.doc) then w.log + [Commit(f.doc.id, f.edit, f.now)] else w.log)
    case Delete(workspaceID, id) =>
      if Select(w.table, workspaceID, id).Some? then w.(table := w.table - {id}) else w
  }

  function Exec(w: World, steps: seq<Step>): World {
    if steps == [] then w else Apply(Exec(w, steps[..|steps| - 1]), steps[|steps| - 1])
  }

  /** The commits on one document, in commit order. */
  function CommitsOn(log: seq<Commit>, id: string): seq<Commit> {
    if log == [] then []
    else CommitsOn(log[..|log| - 1], id) + if log[|log| - 1].id == id then [log[|log| - 1]] else []
  }

  lemma CommitsOnSnoc(log: seq<Commit>, c: Commit, id: string)
    ensures CommitsOn(log + [c], id) == if c.id == id then CommitsOn(log, id) + [c] else CommitsOn(log, id)
  {
    assert (log + [c])[..|log|] == log;
  }

  /** Performing the operations of a list one after the other. */
  function Sequentially(row: Document, commits: seq<Commit>): Document {
    if commits == [] then row
    else
      var c := commits[|commits| - 1];
      Effect(Sequentially(row, commits[..|commits| - 1]), c.edit, c.now)
  }

  /** A flight on document id was computed from a row of that document, and if the stored row still
      has the revision that was read, it still is the row that was read. */
  ghost predicate FlightInv(f: Flight, row: Document) {
    && (f.read.Some? ==>
          && !f.edit.Replace? && f.doc == Stamped(Edited(f.read.value, f.edit), f.now)
          && 1 <= f.read.value.revision <= row.revision
          && (f.read.value.revision == row.revision ==> row == f.read.value))
    && (f.read.None? ==> f.edit.Replace? && f.doc == Stamped(f.edit.doc, f.now))
  }

  /** Row id is stored under its own key and has been written at least once. */
  ghost predicate RowInv(t: Table, id: string) {
    id in t ==> t[id].id == id && t[id].revision >= 1
  }

  ghost predicate Keyed(t: Table) {
    forall k :: k in t ==> t[k].id == k
  }

  /** What holds on the way, for a document that nobody deletes. */
  ghost predicate Inv(w: World, id: string) {
    && id in w.table && RowInv(w.table, id) && Keyed(w.table)
    && forall c :: c in w.flights && w.flights[c].doc.id == id ==> FlightInv(w.flights[c], w.table[id])
  }

  /** A commit on the document applies the operation to the row as it is now, and moves the revision by
      one; every other step leaves the row alone. */
  lemma StepOnDocument(w: World, step: Step, id: string)
    requires Inv(w, id) && (step.Delete? ==> step.id != id)
    ensures var w' := Apply(w, step);
            && Inv(w', id)
            && (if w'.log != w.log && w'.log[|w.log|].id == id then
                  var c := w'.log[|w.log|];
                  w'.log == w.log + [c] && w'.table[id] == Effect(w.table[id], c.edit, c.now)
                  && w'.table[id].revision == w.table[id].revision + 1
                else w'.table[id] == w.table[id])
            && (w'.log == w.log || w'.log == w.log + [w'.log[|w.log|]])
  {
    match step
    case Store(c) =>
      if c in w.flights && w.flights[c].checked && Affects(w.table, w.flights[c].doc) && w.flights[c].doc.id == id {
        StoreOnDocument(w, c, id);
      }
    case Read(_, _, _, _, _) =>
    case Put(_, _, _) =>
    case Check(_) =>
    case Delete(_, _) =>
  }

  lemma StoreOnDocument(w: World, c: nat, id: string)
    requires Inv(w, id) && c in w.flights && w.flights[c].checked
    requires w.flights[c].doc.id == id && Affects(w.table, w.flights[c].doc)
    ensures var w', f := Apply(w, Store(c)), w.flights[c];
            && Inv(w', id) && w'.log == w.log + [Commit(id, f.edit, f.now)]
            && w'.table[id] == Effect(w.table[id], f.edit, f.now)
            && w'.table[id].revision == w.table[id].revision + 1
  {
    var f, row := w.flights[c], w.table[id];
    assert FlightInv(f, row);
    if f.read.Some? {
      assert f.doc.revision == f.read.value.revision + 1;
      assert row == f.read.value;
    }
    assert Written(row, f.doc) == Effect(row, f.edit, f.now);
    var w' := Apply(w, Store(c));
    forall k | k in w'.flights && w'.flights[k].doc.id == id
      ensures FlightInv(w'.flights[k], w'.table[id])
    {
      assert FlightInv(w.flights[k], row);
    }
  }

  /** Serialisability: over any interleaving of the operations, from a moment with nothing in flight
      and without deletion of the document, the row is what its committed operations give when performed
      one after the other in commit order, and each commit raised the revision by exactly one. */
  lemma {:induction false} WritesSerialise(w: World, steps: seq<Step>, id: string)
    requires Keyed(w.table) && RowInv(w.table, id) && id in w.table && w.flights == map[] && w.log == []
    requires forall i :: 0 <= i < |steps| ==> steps[i].Delete? ==> steps[i].id != id
    ensures var end := Exec(w, steps);
            && Inv(end, id)
            && end.table[id] == Sequentially(w.table[id], CommitsOn(end.log, id))
            && end.table[id].revision == w.table[id].revision + |CommitsOn(end.log, id)|
  {
    if steps != [] {
      var init, last := steps[..|steps| - 1], steps[|steps| - 1];
      WritesSerialise(w, init, id);
      var before, end := Exec(w, init), Exec(w, steps);
      StepOnDocument(before, last, id);
      if end.log != before.log {
        var c := end.log[|before.log|];
        CommitsOnSnoc(before.log, c, id);
        if c.id == id {
          assert (CommitsOn(before.log, id) + [c])[..|CommitsOn(before.log, id)|] == CommitsOn(before.log, id);
        }
      }
    }
  }

  // With deletion

  /** The statement removes the document's row. */
  predicate Deletes(w: World, step: Step, id: string) {
    step.Delete? && step.id == id && Select(w.table, step.workspaceID, id).Some?
  }

  /** The caller starts no other call. */
  predicate Waits(step: Step, caller: nat) {
    (step.Read? || step.Put?) ==> step.caller != caller
  }

  /** The call of a caller that read this row: the row it would store, and what has become of the one it read. */
  ghost predicate Pending(w: World, caller: nat, read: Document, edit: Edit) {
    && Keyed(w.table)
    && read.id in w.table && read.revision <= w.table[read.id].revision
    && (read.revision == w.table[read.id].revision ==> w.table[read.id] == read)
    && (caller in w.flights ==>
          var f := w.flights[caller];
          f.read == Some(read) && f.edit == edit && f.doc == Stamped(Edited(read, edit), f.now))
  }

  lemma PendingStep(w: World, step: Step, caller: nat, read: Document, edit: Edit)
    requires Pending(w, caller, read, edit) && Waits(step, caller) && !Deletes(w, step, read.id)
    ensures Pending(Apply(w, step), caller, read, edit)
  {
    match step
    case Store(c) =>
      if c in w.flights && w.flights[c].checked {
        StoreRaises(w.table, w.flights[c].doc, read.id);
      }
    case Read(_, _, _, _, _) =>
    case Put(_, _, _) =>
    case Check(_) =>
    case Delete(_, _) =>
  }

  /** A write that hits an existing row raises its revision. */
  lemma StoreRaises(t: Table, doc: Document, id: string)
    requires Keyed(t) && id in t
    ensures Keyed(Upsert(t, doc)) && id in Upsert(t, doc)
    ensures Upsert(t, doc)[id] == t[id] || Upsert(t, doc)[id].revision == t[id].revision + 1
  {
  }

  /** A call on its own: the read, then steps of others and its own later statements, none of which deletes the
      document. */
  ghost predicate Undisturbed(w: World, read: Step, between: seq<Step>)
    requires read.Read?
  {
    forall i :: 0 <= i < |between| ==>
      Waits(between[i], read.caller) && !Deletes(Exec(Apply(w, read), between[..i]), between[i], read.id)
  }

  lemma {:induction false} PendingThroughout(w: World, read: Step, between: seq<Step>, row: Document)
    requires read.Read? && Undisturbed(w, read, between) && row.id == read.id
    requires Pending(Apply(w, read), read.caller, row, read.edit)
    ensures Pending(Exec(Apply(w, read), between), read.caller, row, read.edit)
  {
    if between != [] {
      var n := |between| - 1;
      var init := between[..n];
      assert forall i :: 0 <= i < n ==> init[i] == between[i] && init[..i] == between[..i];
      PendingThroughout(w, read, init, row);
      PendingStep(Exec(Apply(w, read), init), between[n], read.caller, row, read.edit);
    }
  }

  lemma PendingCommits(w: World, caller: nat, read: Document, edit: Edit)
    requires Pending(w, caller, read, edit) && caller in w.flights && !edit.Replace? && read.revision != -1
    requires Affects(w.table, w.flights[caller].doc)
    ensures w.table[read.id] == read
  {
    assert w.flights[caller].doc.revision == read.revision + 1;
  }

  /** No lost update, whatever is deleted before or after: a read-modify-write that commits found the row exactly as
      it had read it, as long as the document is not deleted between that call's own read and its store. */
  lemma CommitSeesItsRead(w: World, read: Step, between: seq<Step>)
    requires Keyed(w.table) && read.Read? && !read.edit.Replace?
    requires Select(w.table, read.workspaceID, read.id).Some? && w.table[read.id].revision != -1
    requires Undisturbed(w, read, between)
    ensures var now, row := Exec(Apply(w, read), between), w.table[read.id];
            && read.id in now.table
            && (read.caller in now.flights ==>
                  && now.flights[read.caller].read == Some(row)
                  && now.flights[read.caller].doc == Stamped(Edited(row, read.edit), now.flights[read.caller].now)
                  && (Affects(now.table, now.flights[read.caller].doc) ==> now.table[read.id] == row))
  {
    var now := Exec(Apply(w, read), between);
    PendingThroughout(w, read, between, w.table[read.id]);
    if read.caller in now.flights && Affects(now.table, now.flights[read.caller].doc) {
      PendingCommits(now, read.caller, w.table[read.id], read.edit);
    }
  }

  /** The document as another caller creates it anew: the row that was read, with new content. */
  function Recreated(read: Document, content: string): Document {
    read.(content := content)
  }

  /** And the exclusion is needed: at whatever revision a call read the row, once the document is deleted while the
      call is in flight, another caller can create it anew so that the call still commits. Its content then
      replaces the new content, whatever that was. */
  lemma RecreationLosesUpdate(w: World, caller: nat, other: nat, read: Document, content: string, later: int)
    requires caller in w.flights && Pending(w, caller, read, w.flights[caller].edit) && !w.flights[caller].edit.Replace?
    requires caller != other && read.revision >= 1
    requires !NameTaken(w.table, read.id, read.workspaceID, read.name)
    requires !NameTaken(w.table, read.id, read.workspaceID, w.flights[caller].doc.name)
    ensures var f, recreated := w.flights[caller], Recreated(read, content);
            var steps := [Delete(w.table[read.id].workspaceID, read.id), Put(other, recreated, later), Check(other), Store(other),
                          Check(caller), Store(caller)];
            var end := Exec(w, steps);
            && Deletes(w, steps[0], read.id)
            && end.log == w.log + [Commit(read.id, Replace(recreated), later), Commit(read.id, f.edit, f.now)]
            && read.id in end.table && end.table[read.id].content == f.doc.content
  {
    var f, recreated := w.flights[caller], Recreated(read, content);
    var s1 := Apply(w, Delete(w.table[read.id].workspaceID, read.id));
    assert s1 == w.(table := w.table - {read.id});
    var s4 := Apply(Apply(Apply(s1, Put(other, recreated, later)), Check(other)), Store(other));
    CreatedAnew(s1, other, recreated, later);
    NamesFree(w.table, read, Stamped(recreated, later), f.doc.name);
    StaleCommit(s4, caller, read, recreated, later);
    ExecSix(w, Delete(w.table[read.id].workspaceID, read.id), Put(other, recreated, later), Check(other), Store(other),
            Check(caller), Store(caller));
    assert w.log + [Commit(read.id, Replace(recreated), later)] + [Commit(read.id, f.edit, f.now)]
        == w.log + [Commit(read.id, Replace(recreated), later), Commit(read.id, f.edit, f.now)];
  }

  lemma CreatedAnew(w: World, caller: nat, doc: Document, now: int)
    requires doc.id !in w.table && doc.revision >= 1 && !NameTaken(w.table, doc.id, doc.workspaceID, doc.name)
    ensures var end := Apply(Apply(Apply(w, Put(caller, doc, now)), Check(caller)), Store(caller));
            end == World(w.table[doc.id := Stamped(doc, now)], w.flights - {caller}, w.log + [Commit(doc.id, Replace(doc), now)])
  {
    var put := Flight(None, Replace(doc), now, Stamped(doc, now), false);
    var s1 := Apply(w, Put(caller, doc, now));
    assert s1.flights[caller] == put;
    var s2 := Apply(s1, Check(caller));
    assert s2 == s1.(flights := s1.flights[caller := put.(checked := true)]);
    assert s2.flights - {caller} == w.flights - {caller};
  }

  lemma NamesFree(t: Table, read: Document, stored: Document, name: string)
    requires stored.id == read.id && stored.workspaceID == read.workspaceID
    requires !NameTaken(t, read.id, read.workspaceID, name)
    ensures !NameTaken((t - {read.id})[read.id := stored], read.id, read.workspaceID, name)
  {
  }

  lemma StaleCommit(w: World, caller: nat, read: Document, recreated: Document, later: int)
    requires caller in w.flights && !w.flights[caller].edit.Replace? && read.revision >= 1
    requires w.flights[caller].doc == Stamped(Edited(read, w.flights[caller].edit), w.flights[caller].now)
    requires recreated == Recreated(read, recreated.content) && read.id in w.table && w.table[read.id] == Stamped(recreated, later)
    requires !NameTaken(w.table, read.id, read.workspaceID, w.flights[caller].doc.name)
    ensures var f, end := w.flights[caller], Apply(Apply(w, Check(caller)), Store(caller));
            && end.log == w.log + [Commit(read.id, f.edit, f.now)]
            && read.id in end.table && end.table[read.id].content == f.doc.content
  {
    var f := w.flights[caller];
    assert f.doc.id == read.id && f.doc.workspaceID == read.workspaceID && f.doc.revision == read.revision + 1;
    var checked := Apply(w, Check(caller));
    assert checked == w.(flights := w.flights[caller := f.(checked := true)]);
    assert Affects(checked.table, f.doc);
  }

  lemma ExecSnoc(w: World, steps: seq<Step>, s: Step)
    ensures Exec(w, steps + [s]) == Apply(Exec(w, steps), s)
  {
    assert (steps + [s])[..|steps|] == steps;
  }

  lemma ExecSix(w: World, a: Step, b: Step, c: Step, d: Step, e: Step, f: Step)
    ensures Exec(w, [a, b, c, d, e, f]) == Apply(Apply(Apply(Apply(Apply(Apply(w, a), b), c), d), e), f)
  {
    assert [] + [a] == [a] && [a] + [b] == [a, b] && [a, b] + [c] == [a, b, c] && [a, b, c] + [d] == [a, b, c, d];
    assert [a, b, c, d] + [e] == [a, b, c, d, e] && [a, b, c, d, e] + [f] == [a, b, c, d, e, f];
    ExecSnoc(w, [], a);
    ExecSnoc(w, [a], b);
    ExecSnoc(w, [a, b], c);
    ExecSnoc(w, [a, b, c], d);
    ExecSnoc(w, [a, b, c, d], e);
    ExecSnoc(w, [a, b, c, d, e], f);
  }

  /** The store as it runs. Each method is a caller that no other caller interrupts. */
  class DocumentStore {
    var rows: Table

    method GetDocument(workspaceID: string, id: string) returns (doc: Option<Document>)
      ensures doc == Select(rows, workspaceID, id)
    {
      doc := None;
      if id in rows && rows[id].workspaceID == workspaceID {
        doc := Some(rows[id]);
      }
    }

    /** Succeeds exactly when both the check and the upsert's own condition hold, and then stores the
        stamped document; otherwise it reports an error and changes nothing. */
    method WriteDocument(doc0: Document, now: int) returns (r: Option<Document>)
      modifies this
      ensures r.Some? <==> PassesCheck(old(rows), Stamped(doc0, now)) && Affects(old(rows), Stamped(doc0, now))
      ensures r.Some? ==> r.value == Stamped(doc0, now) && rows == Upsert(old(rows), r.value)
      ensures r.None? ==> rows == old(rows)
    {
      var doc := doc0;
      if doc.createdAt == 0 {
        doc := doc.(createdAt := now);
      }
      doc := doc.(updatedAt := now);
      if doc.revision == 0 {
        doc := doc.(revision := 1);
      }
      if doc.revision > 1 {
        var current := GetDocument(doc.workspaceID, doc.id);
        if current.Some? && current.value.revision != doc.revision - 1 {
          return None;
        }
      }
      if !Affects(rows, doc) {
        return None;
      }
      rows := Upsert(rows, doc);
      r := Some(doc);
    }

    /** A read-modify-write performed without interruption succeeds exactly when the document exists in
        the workspace and its name stays free, and then has precisely its Effect. */
    ghost predicate Succeeds(workspaceID: string, id: string, edit: Edit)
      reads this
    {
      Select(rows, workspaceID, id).Some? && !NameTaken(rows, id, workspaceID, Edited(rows[id], edit).name)
    }

    ghost predicate Performed(before: Table, workspaceID: string, id: string, edit: Edit, now: int, could: bool, ok: bool)
      reads this
    {
      && ok == could
      && (ok ==> id in before && rows == before[id := Effect(before[id], edit, now)])
      && (!ok ==> rows == before)
    }

    method AppendDocument(workspaceID: string, id: string, content: string, now: int) returns (ok: bool)
      requires RowInv(rows, id)
      modifies this
      ensures Performed(old(rows), workspaceID, id, Append(content), now, old(Succeeds(workspaceID, id, Append(content))), ok)
    {
      var doc := GetDocument(workspaceID, id);
      if doc.None? {
        return false;
      }
      var next := doc.value.(content := doc.value.content + content, revision := doc.value.revision + 1);
      var written := WriteDocument(next, now);
      ok := written.Some?;
    }

    method RenameDocument(workspaceID: string, id: string, name: string, now: int) returns (ok: bool)
      requires RowInv(rows, id)
      modifies this
      ensures Performed(old(rows), workspaceID, id, Rename(name), now, old(Succeeds(workspaceID, id, Rename(name))), ok)
    {
      var doc := GetDocument(workspaceID, id);
      if doc.None? {
        return false;
      }
      var written := WriteDocument(doc.value.(name := name, revision := doc.value.revision + 1), now);
      ok := written.Some?;
    }

    method ArchiveDocument(workspaceID: string, id: string, archived: bool, now: int) returns (ok: bool)
      requires RowInv(rows, id)
      modifies this
      ensures Performed(old(rows), workspaceID, id, Archive(archived), now, old(Succeeds(workspaceID, id, Archive(archived))), ok)
    {
      var doc := GetDocument(workspaceID, id);
      if doc.None? {
        return false;
      }
      var written := WriteDocument(doc.value.(archived := archived, revision := doc.value.revision + 1), now);
      ok := written.Some?;
    }

    method ClearDocument(workspaceID: string, id: string, now: int) returns (ok: bool)
      requires RowInv(rows, id)
      modifies this
      ensures Performed(old(rows), workspaceID, id, Clear, now, old(Succeeds(workspaceID, id, Clear)), ok)
    {
      var doc := GetDocument(workspaceID, id);
      if doc.None? {
        return false;
      }
      var written := WriteDocument(doc.value.(content := "", revision := doc.value.revision + 1), now);
      ok := written.Some?;
    }

    method AddDocumentMetadata(workspaceID: string, id: string, metadata: map<string, string>, now: int) returns (ok: bool)
      requires RowInv(rows, id)
      modifies this
      ensures Performed(old(rows), workspaceID, id, AddMetadata(metadata), now, old(Succeeds(workspaceID, id, AddMetadata(metadata))), ok)
    {
      var doc := GetDocument(workspaceID, id);
      if doc.None? {
        return false;
      }
      var next := doc.value.(metadata := doc.value.metadata + metadata, revision := doc.value.revision + 1);
      var written := WriteDocument(next, now);
      ok := written.Some?;
    }

    method DeleteDocument(workspaceID: string, id: string)
      modifies this
      ensures rows == if Select(old(rows), workspaceID, id).Some? then old(rows) - {id} else old(rows)
    {
      if id in rows && rows[id].workspaceID == workspaceID {
        rows := rows - {id};
      }
    }
  }
}
