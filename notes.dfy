/** The notes service of `internal/services/notes`: create, list, update and
    delete, where a note is visible to its owner only. A note of another user
    answers exactly as a note that does not exist. */
module Notes {
  import opened Common
  import opened Uuids
  import opened Times
  import opened Stores

  /** `NoteOutput`: a note without its owner. */
  datatype NoteOutput = NoteOutput(id: Uuid, title: Option<string>, text: Option<string>,
                                   pinned: bool, updatedAt: Option<Time>, createdAt: Time)

  datatype CreateNoteInput = CreateNoteInput(userId: Uuid, title: Option<string>, text: Option<string>, pinned: bool)

  datatype UpdateNoteInput = UpdateNoteInput(userId: Uuid, noteId: Uuid, title: Option<string>,
                                             text: Option<string>, pinned: bool)

  datatype DeleteNoteInput = DeleteNoteInput(userId: Uuid, noteId: Uuid)

  const CreateNoteOp := "services.notes.CreateNote"
  const GetNotesOp := "services.notes.GetNotes"
  const UpdateNoteOp := "services.notes.UpdateNote"
  const DeleteNoteOp := "services.notes.DeleteNote"

  /** The output for a stored note. */
  function OutputOf(n: Note): (o: NoteOutput)
    ensures o.id == n.id && o.title == n.title && o.text == n.text && o.pinned == n.pinned
    ensures o.updatedAt == n.updatedAt && o.createdAt == n.createdAt
  {
    NoteOutput(n.id, n.title, n.text, n.pinned, n.updatedAt, n.createdAt)
  }

  /** The note `id` exists and belongs to `userId`. */
  predicate Owns(rows: map<Uuid, Note>, userId: Uuid, id: Uuid) {
    id in rows && rows[id].userId == userId
  }

  /** The row an update writes: the input's title, text and pinned flag and
      the update time; id, owner and creation time are kept. */
  function Updated(n: Note, input: UpdateNoteInput, now: Time): (m: Note)
    ensures m.id == n.id && m.userId == n.userId && m.createdAt == n.createdAt
    ensures m.title == input.title && m.text == input.text && m.pinned == input.pinned
    ensures m.updatedAt == Some(now)
  {
    n.(title := input.title, text := input.text, pinned := input.pinned, updatedAt := Some(now))
  }

  /** The loop of `GetNotes`: one output per note, in the same order. */
  method Outputs(notes: seq<Note>) returns (out: seq<NoteOutput>)
    ensures |out| == |notes|
    ensures forall i :: 0 <= i < |notes| ==> out[i] == OutputOf(notes[i])
  {
    out := [];
    for i := 0 to |notes|
      invariant |out| == i
      invariant forall k :: 0 <= k < i ==> out[k] == OutputOf(notes[k])
    {
      out := out + [OutputOf(notes[i])];
    }
  }

  class NoteService {
    const st: Storage

    constructor (st: Storage)
      ensures this.st == st
    {
      this.st := st;
    }

    /** `CreateNote`: one new note, never updated yet; the output mirrors it. */
    method CreateNote(input: CreateNoteInput, id: Uuid, now: Time, faults: Faults) returns (r: Result<NoteOutput>)
      modifies st.notes
      ensures r.Ok? <==> !faults.write && id !in old(st.notes.rows)
      ensures r.Err? ==>
        r.error == Wrapped(CreateNoteOp, StoreError("storage.notes.Create")) && st.notes.rows == old(st.notes.rows)
      ensures r.Ok? ==>
        var n := Note(id, input.userId, input.title, input.text, input.pinned, None, now);
        st.notes.rows == old(st.notes.rows)[id := n] && r.value == OutputOf(n)
    {
      var note := Note(id, input.userId, input.title, input.text, input.pinned, None, now);
      var created := st.notes.Create(note, faults.write);
      if created.Err? {
        return Err(Wrapped(CreateNoteOp, created.error));
      }
      return Ok(OutputOf(note));
    }

    /** `GetNotes`: the outputs of exactly the user's notes, each once. */
    method GetNotes(userId: Uuid, faults: Faults) returns (r: Result<seq<NoteOutput>>)
      requires NotesValid(st.notes.rows)
      ensures r.Ok? <==> !faults.read
      ensures r.Err? ==> r.error == Wrapped(GetNotesOp, StoreError("storage.notes.GetByUserID"))
      ensures r.Ok? ==> forall o :: o in r.value <==>
        exists id :: Owns(st.notes.rows, userId, id) && o == OutputOf(st.notes.rows[id])
      ensures r.Ok? ==> forall i, j :: 0 <= i < j < |r.value| ==> r.value[i].id != r.value[j].id
    {
      var notes := st.notes.GetByUserID(userId, faults.read);
      if notes.Err? {
        return Err(Wrapped(GetNotesOp, notes.error));
      }
      var out := Outputs(notes.value);
      OutputsListOwned(st.notes.rows, userId, notes.value, out);
      return Ok(out);
    }

    /** `UpdateNote`: a missing or foreign note is `ErrNoteNotFound` and
        nothing is written; otherwise the note's content and update time
        are replaced. */
    method UpdateNote(input: UpdateNoteInput, now: Time, faults: Faults) returns (r: Result<NoteOutput>)
      requires NotesValid(st.notes.rows)
      modifies st.notes
      ensures NotesValid(st.notes.rows)
      ensures r ==
        if faults.read then Err(Wrapped(UpdateNoteOp, StoreError("storage.notes.GetByID")))
        else if !Owns(old(st.notes.rows), input.userId, input.noteId) then Err(NoteNotFound)
        else if faults.write then Err(Wrapped(UpdateNoteOp, StoreError("storage.notes.Update")))
        else Ok(OutputOf(Updated(old(st.notes.rows)[input.noteId], input, now)))
      ensures r.Ok? ==>
        st.notes.rows == old(st.notes.rows)[input.noteId := Updated(old(st.notes.rows)[input.noteId], input, now)]
      ensures r.Err? ==> st.notes.rows == old(st.notes.rows)
    {
      var found := st.notes.GetByID(input.noteId, faults.read);
      if found.Err? {
        return Err(Wrapped(UpdateNoteOp, found.error));
      }
      if found.value.None? || found.value.value.userId != input.userId {
        return Err(NoteNotFound);
      }
      var note := found.value.value;
      note := note.(title := input.title, text := input.text, pinned := input.pinned, updatedAt := Some(now));
      var updated := st.notes.Update(note, faults.write);
      if updated.Err? {
        return Err(Wrapped(UpdateNoteOp, updated.error));
      }
      return Ok(OutputOf(note));
    }

    /** `DeleteNote`: a missing or foreign note is `ErrNoteNotFound` and
        nothing is deleted; otherwise exactly that note goes. */
    method DeleteNote(input: DeleteNoteInput, faults: Faults) returns (r: Result<()>)
      requires NotesValid(st.notes.rows)
      modifies st.notes
      ensures r ==
        if faults.read then Err(Wrapped(DeleteNoteOp, StoreError("storage.notes.GetByID")))
        else if !Owns(old(st.notes.rows), input.userId, input.noteId) then Err(NoteNotFound)
        else if faults.write then Err(Wrapped(DeleteNoteOp, StoreError("storage.notes.Delete")))
        else Ok(())
      ensures r.Ok? ==> st.notes.rows == old(st.notes.rows) - {input.noteId}
      ensures r.Err? ==> st.notes.rows == old(st.notes.rows)
    {
      var found := st.notes.GetByID(input.noteId, faults.read);
      if found.Err? {
        return Err(Wrapped(DeleteNoteOp, found.error));
      }
      if found.value.None? || found.value.value.userId != input.userId {
        return Err(NoteNotFound);
      }
      var deleted := st.notes.Delete(found.value.value.id, faults.write);
      if deleted.Err? {
        return Err(Wrapped(DeleteNoteOp, deleted.error));
      }
      return Ok(());
    }
  }

  /** The outputs of a complete listing of a user's notes are the outputs of
      exactly that user's notes, with no id twice. */
  lemma OutputsListOwned(rows: map<Uuid, Note>, userId: Uuid, notes: seq<Note>, out: seq<NoteOutput>)
    requires ListsOwned(rows, userId, notes)
    requires |out| == |notes| && forall i :: 0 <= i < |notes| ==> out[i] == OutputOf(notes[i])
    ensures forall o :: o in out <==> exists id :: Owns(rows, userId, id) && o == OutputOf(rows[id])
    ensures forall i, j :: 0 <= i < j < |out| ==> out[i].id != out[j].id
  {
    forall o | o in out
      ensures exists id :: Owns(rows, userId, id) && o == OutputOf(rows[id])
    {
      var i :| 0 <= i < |out| && out[i] == o;
      assert Owns(rows, userId, notes[i].id);
    }
    forall o | exists id :: Owns(rows, userId, id) && o == OutputOf(rows[id])
      ensures o in out
    {
      var id :| Owns(rows, userId, id) && o == OutputOf(rows[id]);
      var i :| 0 <= i < |notes| && notes[i] == rows[id];
      assert out[i] == o;
    }
  }
}
