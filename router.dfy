/**
 * The RPC router: member and note procedures forwarded to a JSON document store.
 * The store is a class holding the two collections; each collection is a map from
 * id to record together with the order in which the store lists its records.
 */
module Router {
  import opened Records

  /** `s` with `x` removed and the other ids kept in their order. */
  function Without(s: seq<string>, x: string): (r: seq<string>)
    ensures forall y :: y in r <==> y in s && y != x
    ensures Distinct(s) ==> Distinct(r)
  {
    if s == [] then []
    else if s[0] == x then Without(s[1..], x)
    else
      var rest := Without(s[1..], x);
      assert Distinct(s) ==> s[0] !in s[1..];
      [s[0]] + rest
  }

  /** The record `createNote` posts: no `versions` field yet. */
  function Created(input: CreateNoteInput): (r: Note)
    ensures r.id == input.id && r.member == input.member && r.text == input.text
    ensures r.timestamp == Some(input.timestamp) && r.versions.None? && History(r) == []
  {
    Note(input.id, input.member, input.text, Some(input.timestamp), None)
  }

  /**
   * The record `updateNote` writes back over `existing`: the caller's text, the
   * server's time, and the history extended by the caller's `previousVersion`,
   * which is taken as given and not compared with the stored text or timestamp.
   */
  function Versioned(existing: Note, input: UpdateNoteInput, now: string): (r: Note)
    ensures r.id == existing.id && r.member == existing.member
    ensures r.text == input.text && r.timestamp == Some(now) && r.versions.Some?
    ensures |History(r)| == |History(existing)| + 1
    ensures History(r)[..|History(existing)|] == History(existing)
    ensures History(r)[|History(existing)|] == input.previousVersion
  {
    existing.(text := input.text, timestamp := Some(now),
              versions := Some(History(existing) + [input.previousVersion]))
  }

  /** Replaying the same update appends the same entry twice: `updateNote` is not idempotent. */
  lemma UpdateNotIdempotent(n: Note, input: UpdateNoteInput, now1: string, now2: string)
    ensures var once := Versioned(n, input, now1);
            var twice := Versioned(once, input, now2);
            && |History(twice)| == |History(n)| + 2
            && History(twice)[..|History(n)|] == History(n)
            && History(twice)[|History(n)|] == input.previousVersion
            && History(twice)[|History(n)| + 1] == input.previousVersion
            && twice != once
  {
    var once := Versioned(n, input, now1);
    var twice := Versioned(once, input, now2);
    assert History(twice)[..|History(n)|] == History(once)[..|History(n)|];
  }

  /** The records of `m` listed in the order of `order`. */
  function Listed<V>(order: seq<string>, m: map<string, V>): (r: seq<V>)
    requires forall k :: k in order ==> k in m
    ensures |r| == |order| && forall i :: 0 <= i < |r| ==> r[i] == m[order[i]]
  {
    seq(|order|, i requires 0 <= i < |order| => m[order[i]])
  }

  /** Records stored under the ids of `order`, each under its own id. */
  ghost predicate Keyed<V>(order: seq<string>, m: map<string, V>, idOf: V -> string) {
    && Distinct(order)
    && (forall k :: k in order <==> k in m)
    && (forall k :: k in m ==> idOf(m[k]) == k)
  }

  /** The notes listed under `order` that belong to `member`, in that order. */
  function NotesOf(order: seq<string>, notes: map<string, Note>, member: string): (r: seq<Note>)
    requires forall k :: k in order ==> k in notes && notes[k].id == k
    ensures forall n :: n in r ==> n.member == member && n.id in order && n.id in notes && notes[n.id] == n
    ensures forall k :: k in order && notes[k].member == member ==> notes[k] in r
    ensures Distinct(order) ==> forall i, j :: 0 <= i < j < |r| ==> r[i].id != r[j].id
  {
    if order == [] then []
    else
      var rest := NotesOf(order[1..], notes, member);
      if notes[order[0]].member == member then
        assert Distinct(order) ==> order[0] !in order[1..];
        [notes[order[0]]] + rest
      else rest
  }

  class Store {
    var members: map<string, Member>
    var memberOrder: seq<string>
    var notes: map<string, Note>
    var noteOrder: seq<string>

    ghost predicate Valid()
      reads this
    {
      && Keyed(memberOrder, members, (m: Member) => m.id)
      && Keyed(noteOrder, notes, (n: Note) => n.id)
    }

    constructor ()
      ensures Valid()
      ensures members == map[] && memberOrder == [] && notes == map[] && noteOrder == []
    {
      members, memberOrder := map[], [];
      notes, noteOrder := map[], [];
    }

    /** `getUsers`: every stored member, once each, in store order. */
    function Users(): (r: seq<Member>)
      reads this
      requires Valid()
      ensures forall m :: m in r ==> m.id in members && members[m.id] == m
      ensures forall k :: k in members ==> members[k] in r
      ensures forall i, j :: 0 <= i < j < |r| ==> r[i].id != r[j].id
      ensures |r| == |memberOrder| && forall i :: 0 <= i < |r| ==> r[i] == members[memberOrder[i]]
    {
      var r := Listed(memberOrder, members);
      assert forall k :: k in members ==> exists i :: 0 <= i < |memberOrder| && memberOrder[i] == k && r[i] == members[k];
      r
    }

    /** `getNotes`: every stored note, once each, in store order. */
    function AllNotes(): (r: seq<Note>)
      reads this
      requires Valid()
      ensures forall n :: n in r ==> n.id in notes && notes[n.id] == n
      ensures forall k :: k in notes ==> notes[k] in r
      ensures forall i, j :: 0 <= i < j < |r| ==> r[i].id != r[j].id
      ensures |r| == |noteOrder| && forall i :: 0 <= i < |r| ==> r[i] == notes[noteOrder[i]]
    {
      var r := Listed(noteOrder, notes);
      assert forall k :: k in notes ==> exists i :: 0 <= i < |noteOrder| && noteOrder[i] == k && r[i] == notes[k];
      r
    }

    /** `getUserNotes`: the stored notes of one member; empty, not an error, when there are none. */
    function UserNotes(userId: string): (r: seq<Note>)
      reads this
      requires Valid()
      ensures forall n :: n in r ==> n.member == userId && n.id in notes && notes[n.id] == n
      ensures forall k :: k in notes && notes[k].member == userId ==> notes[k] in r
      ensures forall i, j :: 0 <= i < j < |r| ==> r[i].id != r[j].id
      ensures r == [] <==> forall k :: k in notes ==> notes[k].member != userId
    {
      var r := NotesOf(noteOrder, notes, userId);
      assert r != [] ==> r[0] in r;
      r
    }

    /** `createUser`: posts the input as a new member record. */
    method CreateUser(input: Member) returns (r: Result<Member>)
      requires Valid()
      modifies this
      ensures Valid()
      ensures r == if input.id in old(members) then Err(DuplicateId) else Ok(input)
      ensures members == if r.Ok? then old(members)[input.id := input] else old(members)
      ensures memberOrder == if r.Ok? then old(memberOrder) + [input.id] else old(memberOrder)
      ensures notes == old(notes) && noteOrder == old(noteOrder)
    {
      if input.id in members {
        return Err(DuplicateId);
      }
      members := members[input.id := input];
      memberOrder := memberOrder + [input.id];
      r := Ok(input);
    }

    /** `updateUser`: replaces the member record stored under the input's id. */
    method UpdateUser(input: Member) returns (r: Result<Member>)
      requires Valid()
      modifies this
      ensures Valid()
      ensures r == if input.id in old(members) then Ok(input) else Err(NotFound)
      ensures members == if r.Ok? then old(members)[input.id := input] else old(members)
      ensures memberOrder == old(memberOrder)
      ensures notes == old(notes) && noteOrder == old(noteOrder)
    {
      if input.id !in members {
        return Err(NotFound);
      }
      members := members[input.id := input];
      r := Ok(input);
    }

    /** `deleteUser`: removes one member record; the member's notes stay. */
    method DeleteUser(id: string) returns (r: Result<()>)
      requires Valid()
      modifies this
      ensures Valid()
      ensures r == if id in old(members) then Ok(()) else Err(NotFound)
      ensures id !in members
      ensures members == old(members) - {id}
      ensures memberOrder == Without(old(memberOrder), id)
      ensures notes == old(notes) && noteOrder == old(noteOrder)
    {
      if id !in members {
        assert memberOrder == Without(memberOrder, id) by {
          WithoutAbsent(memberOrder, id);
        }
        return Err(NotFound);
      }
      members := members - {id};
      memberOrder := Without(memberOrder, id);
      r := Ok(());
    }

    /** `createNote`: posts a new note record without history. */
    method CreateNote(input: CreateNoteInput) returns (r: Result<Note>)
      requires Valid()
      modifies this
      ensures Valid()
      ensures r == if input.id in old(notes) then Err(DuplicateId) else Ok(Created(input))
      ensures notes == if r.Ok? then old(notes)[input.id := Created(input)] else old(notes)
      ensures noteOrder == if r.Ok? then old(noteOrder) + [input.id] else old(noteOrder)
      ensures members == old(members) && memberOrder == old(memberOrder)
    {
      if input.id in notes {
        return Err(DuplicateId);
      }
      var note := Created(input);
      notes := notes[input.id := note];
      noteOrder := noteOrder + [input.id];
      r := Ok(note);
    }

    /**
     * `updateNote`: reads the stored note, appends the caller's previous version
     * to its history and writes it back with the new text and the server's time.
     */
    method UpdateNote(input: UpdateNoteInput, now: string) returns (r: Result<Note>)
      requires Valid()
      modifies this
      ensures Valid()
      ensures r.Ok? <==> input.id in old(notes)
      ensures r.Ok? ==> r.value == Versioned(old(notes)[input.id], input, now)
      ensures notes == if r.Ok? then old(notes)[input.id := r.value] else old(notes)
      ensures r.Err? ==> r.error == NotFound
      ensures noteOrder == old(noteOrder)
      ensures members == old(members) && memberOrder == old(memberOrder)
    {
      if input.id !in notes {
        return Err(NotFound);
      }
      var existing := notes[input.id];
      var versions := History(existing);
      versions := versions + [NoteVersion(input.previousVersion.text, input.previousVersion.timestamp)];
      var updated := existing.(text := input.text, timestamp := Some(now), versions := Some(versions));
      notes := notes[input.id := updated];
      r := Ok(updated);
    }
  }

  lemma {:induction false} WithoutAbsent(s: seq<string>, x: string)
    requires x !in s
    ensures Without(s, x) == s
  {
    if s != [] {
      WithoutAbsent(s[1..], x);
      assert [s[0]] + s[1..] == s;
    }
  }
}
