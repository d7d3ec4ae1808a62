/** Records exchanged between the notes UI, its RPC router and the JSON document store. */
module Records {

  datatype Option<T> = None | Some(value: T)

  /** Why a store call fails: the addressed record is absent, or a create reuses an id. */
  datatype Error = NotFound | DuplicateId

  datatype Result<T> = Ok(value: T) | Err(error: Error)

  /** A person in the directory. */
  datatype Member = Member(id: string, firstName: string, lastName: string)

  /** A superseded state of a note: its text and the time that text was written. */
  datatype NoteVersion = NoteVersion(text: string, timestamp: string)

  /** A note; `timestamp` and `versions` may be absent from a stored record. */
  datatype Note = Note(id: string, member: string, text: string,
                       timestamp: Option<string>, versions: Option<seq<NoteVersion>>)

  /** Input of the `createNote` procedure. */
  datatype CreateNoteInput = CreateNoteInput(id: string, member: string, text: string, timestamp: string)

  /** Input of the `updateNote` procedure. */
  datatype UpdateNoteInput = UpdateNoteInput(id: string, text: string, previousVersion: NoteVersion)

  /** JavaScript truthiness of an optional string: an absent value and "" are both falsy. */
  predicate Truthy(s: Option<string>) {
    s.Some? && s.value != ""
  }

  /** The edit history of a note, `note.versions || []`. */
  function History(n: Note): seq<NoteVersion> {
    if n.versions.Some? then n.versions.value else []
  }

  predicate Distinct<T(==)>(s: seq<T>) {
    forall i, j :: 0 <= i < j < |s| ==> s[i] != s[j]
  }
}
