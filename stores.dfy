/** The records of the three tables and the store ports over them (the
    `Storage` interfaces of the users, sessions and notes packages), as tables
    held in memory: each table maps a primary key to its row. A lookup that finds nothing answers
    `Ok(None)`, as the SQL stores do when the query yields no rows; every call
    may instead fail, as a database call can, which the `fault` argument of
    each store method stands for. */
module Stores {
  import opened Common
  import opened Uuids
  import opened Times

  /** `users.UserStatus`. */
  datatype UserStatus = Pending | Active | Blocked | Deleted

  /** `users.User`. */
  datatype User = User(id: Uuid, login: string, passwordHash: string, firstName: string,
                       timezone: string, status: UserStatus, createdAt: Time)

  /** `sessions.Session`; a nil user agent is `None`. */
  datatype Session = Session(id: Uuid, userId: Uuid, userAgent: Option<string>, createdAt: Time)

  /** `notes.Note`; nil title, text and update time are `None`. */
  datatype Note = Note(id: Uuid, userId: Uuid, title: Option<string>, text: Option<string>,
                       pinned: bool, updatedAt: Option<Time>, createdAt: Time)

  /** Which store calls of one service operation fail: its lookup and its
      write (each operation makes at most one of each). */
  datatype Faults = Faults(read: bool, write: bool)

  /** A lookup by primary key: the store error, no row, or the row. */
  function Lookup<T>(rows: map<Uuid, T>, id: Uuid, fault: bool, op: string): (r: Result<Option<T>>)
    ensures r.Err? <==> fault
    ensures r.Ok? ==> (r.value.Some? <==> id in rows)
    ensures r.Ok? && id in rows ==> r.value == Some(rows[id])
  {
    if fault then Err(StoreError(op)) else if id in rows then Ok(Some(rows[id])) else Ok(None)
  }

  predicate LoginTaken(rows: map<Uuid, User>, login: string) {
    exists id :: id in rows && rows[id].login == login
  }

  /** The login is held by a user other than `id`. */
  predicate LoginTakenByOther(rows: map<Uuid, User>, login: string, id: Uuid) {
    exists other :: other in rows && other != id && rows[other].login == login
  }

  /** The users table: each row under its own id, and no login held twice. */
  predicate UsersValid(rows: map<Uuid, User>) {
    && (forall id :: id in rows ==> rows[id].id == id)
    && (forall a, b :: a in rows && b in rows && rows[a].login == rows[b].login ==> a == b)
  }

  /** The user holding a login; there is at most one. */
  function FindByLogin(rows: map<Uuid, User>, login: string): (r: Option<User>)
    requires UsersValid(rows)
    ensures r.Some? <==> LoginTaken(rows, login)
    ensures r.Some? ==> r.value.id in rows && rows[r.value.id] == r.value && r.value.login == login
  {
    if LoginTaken(rows, login) then
      var id :| id in rows && rows[id].login == login;
      Some(rows[id])
    else None
  }

  /** Each row of the notes table is stored under its own id. */
  predicate NotesValid(rows: map<Uuid, Note>) {
    forall id :: id in rows ==> rows[id].id == id
  }

  /** `users.Storage`. */
  class UserStore {
    var rows: map<Uuid, User>

    constructor ()
      ensures rows == map[]
    {
      rows := map[];
    }

    /** `Create`: the insert is refused on a duplicate id or login. */
    method Create(u: User, fault: bool) returns (r: Result<()>)
      modifies this
      ensures r.Ok? <==> !fault && u.id !in old(rows) && !LoginTaken(old(rows), u.login)
      ensures r.Ok? ==> rows == old(rows)[u.id := u]
      ensures r.Err? ==> r.error == StoreError("storage.users.Create") && rows == old(rows)
    {
      if fault || u.id in rows || LoginTaken(rows, u.login) {
        return Err(StoreError("storage.users.Create"));
      }
      rows := rows[u.id := u];
      return Ok(());
    }

    method GetByID(id: Uuid, fault: bool) returns (r: Result<Option<User>>)
      ensures r == Lookup(rows, id, fault, "storage.users.GetByID")
    {
      return Lookup(rows, id, fault, "storage.users.GetByID");
    }

    method GetByLogin(login: string, fault: bool) returns (r: Result<Option<User>>)
      requires UsersValid(rows)
      ensures fault ==> r == Err(StoreError("storage.users.GetByLogin"))
      ensures !fault ==> r == Ok(FindByLogin(rows, login))
    {
      if fault {
        return Err(StoreError("storage.users.GetByLogin"));
      }
      return Ok(FindByLogin(rows, login));
    }

    /** `Update`: the row with the same id is replaced; no row matching is
        not an error; a login held by another user is refused. */
    method Update(u: User, fault: bool) returns (r: Result<()>)
      modifies this
      ensures r.Ok? <==> !fault && !LoginTakenByOther(old(rows), u.login, u.id)
      ensures r.Ok? ==> rows == if u.id in old(rows) then old(rows)[u.id := u] else old(rows)
      ensures r.Err? ==> r.error == StoreError("storage.users.Update") && rows == old(rows)
    {
      if fault || LoginTakenByOther(rows, u.login, u.id) {
        return Err(StoreError("storage.users.Update"));
      }
      if u.id in rows {
        rows := rows[u.id := u];
      }
      return Ok(());
    }

    /** `Delete`: deleting an absent id is not an error. */
    method Delete(id: Uuid, fault: bool) returns (r: Result<()>)
      modifies this
      ensures r.Ok? <==> !fault
      ensures r.Ok? ==> rows == old(rows) - {id}
      ensures r.Err? ==> r.error == StoreError("storage.users.Delete") && rows == old(rows)
    {
      if fault {
        return Err(StoreError("storage.users.Delete"));
      }
      rows := rows - {id};
      return Ok(());
    }
  }

  /** `sessions.Storage`. */
  class SessionStore {
    var rows: map<Uuid, Session>

    constructor ()
      ensures rows == map[]
    {
      rows := map[];
    }

    method Create(s: Session, fault: bool) returns (r: Result<()>)
      modifies this
      ensures r.Ok? <==> !fault && s.id !in old(rows)
      ensures r.Ok? ==> rows == old(rows)[s.id := s]
      ensures r.Err? ==> r.error == StoreError("storage.sessions.Create") && rows == old(rows)
    {
      if fault || s.id in rows {
        return Err(StoreError("storage.sessions.Create"));
      }
      rows := rows[s.id := s];
      return Ok(());
    }

    method GetByID(id: Uuid, fault: bool) returns (r: Result<Option<Session>>)
      ensures r == Lookup(rows, id, fault, "storage.sessions.GetByID")
    {
      return Lookup(rows, id, fault, "storage.sessions.GetByID");
    }

    method Delete(id: Uuid, fault: bool) returns (r: Result<()>)
      modifies this
      ensures r.Ok? <==> !fault
      ensures r.Ok? ==> rows == old(rows) - {id}
      ensures r.Err? ==> r.error == StoreError("storage.sessions.Delete") && rows == old(rows)
    {
      if fault {
        return Err(StoreError("storage.sessions.Delete"));
      }
      rows := rows - {id};
      return Ok(());
    }
  }

  /** The notes of a list are exactly the rows of `rows` owned by `userId`,
      each once. */
  predicate ListsOwned(rows: map<Uuid, Note>, userId: Uuid, notes: seq<Note>) {
    && (forall i :: 0 <= i < |notes| ==>
          notes[i].id in rows && rows[notes[i].id] == notes[i] && notes[i].userId == userId)
    && (forall id :: id in rows && rows[id].userId == userId ==> rows[id] in notes)
    && (forall i, j :: 0 <= i < j < |notes| ==> notes[i].id != notes[j].id)
  }

  /** `notes.Storage`. */
  class NoteStore {
    var rows: map<Uuid, Note>

    constructor ()
      ensures rows == map[]
    {
      rows := map[];
    }

    method Create(n: Note, fault: bool) returns (r: Result<()>)
      modifies this
      ensures r.Ok? <==> !fault && n.id !in old(rows)
      ensures r.Ok? ==> rows == old(rows)[n.id := n]
      ensures r.Err? ==> r.error == StoreError("storage.notes.Create") && rows == old(rows)
    {
      if fault || n.id in rows {
        return Err(StoreError("storage.notes.Create"));
      }
      rows := rows[n.id := n];
      return Ok(());
    }

    method GetByID(id: Uuid, fault: bool) returns (r: Result<Option<Note>>)
      ensures r == Lookup(rows, id, fault, "storage.notes.GetByID")
    {
      return Lookup(rows, id, fault, "storage.notes.GetByID");
    }

    /** `GetByUserID`: the rows of one user, collected one at a time as the
        query's rows are scanned, in an order the table does not fix. */
    method GetByUserID(userId: Uuid, fault: bool) returns (r: Result<seq<Note>>)
      requires NotesValid(rows)
      ensures r.Ok? <==> !fault
      ensures r.Err? ==> r.error == StoreError("storage.notes.GetByUserID")
      ensures r.Ok? ==> ListsOwned(rows, userId, r.value)
    {
      if fault {
        return Err(StoreError("storage.notes.GetByUserID"));
      }
      var notes: seq<Note> := [];
      var pending := rows.Keys;
      while pending != {}
        invariant pending <= rows.Keys
        invariant forall i :: 0 <= i < |notes| ==>
          notes[i].id in rows.Keys - pending && rows[notes[i].id] == notes[i] && notes[i].userId == userId
        invariant forall id :: id in rows.Keys - pending && rows[id].userId == userId ==> rows[id] in notes
        invariant forall i, j :: 0 <= i < j < |notes| ==> notes[i].id != notes[j].id
        decreases pending
      {
        var id :| id in pending;
        if rows[id].userId == userId {
          notes := notes + [rows[id]];
        }
        pending := pending - {id};
      }
      return Ok(notes);
    }

    /** `Update`: the row with the same id is replaced; no row matching is
        not an error. */
    method Update(n: Note, fault: bool) returns (r: Result<()>)
      modifies this
      ensures r.Ok? <==> !fault
      ensures r.Ok? ==> rows == if n.id in old(rows) then old(rows)[n.id := n] else old(rows)
      ensures r.Err? ==> r.error == StoreError("storage.notes.Update") && rows == old(rows)
    {
      if fault {
        return Err(StoreError("storage.notes.Update"));
      }
      if n.id in rows {
        rows := rows[n.id := n];
      }
      return Ok(());
    }

    method Delete(id: Uuid, fault: bool) returns (r: Result<()>)
      modifies this
      ensures r.Ok? <==> !fault
      ensures r.Ok? ==> rows == old(rows) - {id}
      ensures r.Err? ==> r.error == StoreError("storage.notes.Delete") && rows == old(rows)
    {
      if fault {
        return Err(StoreError("storage.notes.Delete"));
      }
      rows := rows - {id};
      return Ok(());
    }
  }

  /** `storage.Storage`: the three stores behind one handle. */
  class Storage {
    const users: UserStore
    const sessions: SessionStore
    const notes: NoteStore

    constructor ()
      ensures fresh(users) && fresh(sessions) && fresh(notes)
      ensures users.rows == map[] && sessions.rows == map[] && notes.rows == map[]
    {
      users := new UserStore();
      sessions := new SessionStore();
      notes := new NoteStore();
    }
  }
}
