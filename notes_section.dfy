/**
 * The notes pane: the order in which a member's notes are shown (grouped by
 * calendar day, sorted within a day by original creation time), the guards that
 * decide whether a create or an edit is sent, and the expanded-history set.
 *
 * Date handling is foreign to the model: `dateKey` stands for the locale
 * calendar-day string of a timestamp and `timeOf` for its millisecond value.
 */
module NotesSection {
  import opened Records
  import opened JsString
  import Router

  /** The sort key used when a note has neither history nor a timestamp. */
  const DefaultTimestamp: string := "2024-02-19T12:00:00.000Z"

  /** `getOriginalTimestamp`: when the note was first written. */
  function OriginalTimestamp(n: Note): (r: string)
    ensures |History(n)| > 0 ==> r == History(n)[0].timestamp
    ensures History(n) == [] && Truthy(n.timestamp) ==> r == n.timestamp.value
    ensures History(n) == [] && !Truthy(n.timestamp) ==> r == DefaultTimestamp
    ensures History(n) == [] ==> r != ""
  {
    if |History(n)| > 0 then History(n)[0].timestamp
    else if Truthy(n.timestamp) then n.timestamp.value
    else DefaultTimestamp
  }

  /** The day heading a note is filed under. */
  function DayOf(n: Note, dateKey: string -> string): string {
    dateKey(OriginalTimestamp(n))
  }

  /** The sort key of a note: its original timestamp as a time value. */
  function Key(n: Note, timeOf: string -> int): int {
    timeOf(OriginalTimestamp(n))
  }

  // ---------------------------------------------------------------------------
  // Grouping by day
  // ---------------------------------------------------------------------------

  /** The notes of `s` filed under day `k`, in list order. */
  function OnDay(s: seq<Note>, dateKey: string -> string, k: string): seq<Note> {
    if s == [] then []
    else
      var last := s[|s| - 1];
      OnDay(s[..|s| - 1], dateKey, k) + (if DayOf(last, dateKey) == k then [last] else [])
  }

  /** The day headings of `s` in order of first appearance (the key order of a JavaScript object, which
   * lists insertion order only for keys that are not array indices, as locale
   * date headings such as "Feb 19, 2024" or "Invalid Date" never are). `dateKey`
   * itself is not so constrained: an array-index heading would be listed out of
   * insertion order in the source, and a heading naming a property inherited by
   * `{}` (such as "__proto__", "constructor" or "toString") would make the
   * source's `push` throw, while this model groups such headings like any other. */
  function DaysOf(s: seq<Note>, dateKey: string -> string): (r: seq<string>)
    ensures Distinct(r)
  {
    if s == [] then []
    else
      var d := DaysOf(s[..|s| - 1], dateKey);
      var k := DayOf(s[|s| - 1], dateKey);
      if k in d then d else d + [k]
  }

  /** Every note's day is among the headings. */
  lemma {:induction false} DayListed(s: seq<Note>, dateKey: string -> string, i: nat)
    requires i < |s|
    ensures DayOf(s[i], dateKey) in DaysOf(s, dateKey)
  {
    if i < |s| - 1 {
      DayListed(s[..|s| - 1], dateKey, i);
    }
  }

  /** Every heading has at least one note under it. */
  lemma {:induction false} DayHasNotes(s: seq<Note>, dateKey: string -> string, k: string)
    requires k in DaysOf(s, dateKey)
    ensures OnDay(s, dateKey, k) != []
  {
    if DayOf(s[|s| - 1], dateKey) != k {
      DayHasNotes(s[..|s| - 1], dateKey, k);
    }
  }

  lemma OnDayAppend(s: seq<Note>, x: Note, dateKey: string -> string, k: string)
    ensures OnDay(s + [x], dateKey, k) == OnDay(s, dateKey, k) + (if DayOf(x, dateKey) == k then [x] else [])
  {
    assert (s + [x])[..|s|] == s;
  }

  lemma DaysAppend(s: seq<Note>, x: Note, dateKey: string -> string)
    ensures DaysOf(s + [x], dateKey) == if DayOf(x, dateKey) in DaysOf(s, dateKey) then DaysOf(s, dateKey) else DaysOf(s, dateKey) + [DayOf(x, dateKey)]
  {
    assert (s + [x])[..|s|] == s;
  }

  /** A day that no note of `s` is filed under has an empty group. */
  lemma {:induction false} NoDayNoGroup(s: seq<Note>, dateKey: string -> string, k: string)
    requires k !in DaysOf(s, dateKey)
    ensures OnDay(s, dateKey, k) == []
  {
    if s != [] {
      assert DayOf(s[|s| - 1], dateKey) in DaysOf(s, dateKey);
      NoDayNoGroup(s[..|s| - 1], dateKey, k);
    }
  }

  /** `days` and `groups` are the day headings and the per-day lists of `s`. */
  ghost predicate GroupedAs(s: seq<Note>, dateKey: string -> string, days: seq<string>, groups: map<string, seq<Note>>) {
    && days == DaysOf(s, dateKey)
    && (forall k :: k in groups <==> k in days)
    && (forall k :: k in groups ==> groups[k] == OnDay(s, dateKey, k))
  }

  /** One step of the `reduce`: open the list of `x`'s day if it is missing, then push `x` onto it. */
  lemma GroupStep(s: seq<Note>, x: Note, dateKey: string -> string, days: seq<string>, groups: map<string, seq<Note>>)
    requires GroupedAs(s, dateKey, days, groups)
    ensures var k := DayOf(x, dateKey);
            var days' := if k in groups then days else days + [k];
            var withDay := if k in groups then groups else groups[k := []];
            GroupedAs(s + [x], dateKey, days', withDay[k := withDay[k] + [x]])
  {
    var k := DayOf(x, dateKey);
    var days' := if k in groups then days else days + [k];
    var withDay := if k in groups then groups else groups[k := []];
    var after := withDay[k := withDay[k] + [x]];
    DaysAppend(s, x, dateKey);
    if k !in groups {
      NoDayNoGroup(s, dateKey, k);
    }
    assert withDay[k] == OnDay(s, dateKey, k);
    forall j | j in after ensures after[j] == OnDay(s + [x], dateKey, j) {
      OnDayAppend(s, x, dateKey, j);
    }
  }

  lemma TakeOneMore(s: seq<Note>, i: nat)
    requires i < |s|
    ensures s[..i + 1] == s[..i] + [s[i]]
  {
  }

  /** The grouping `reduce`: one list per day heading, in list order, with the headings in key order. */
  method GroupNotes(notes: seq<Note>, dateKey: string -> string) returns (days: seq<string>, groups: map<string, seq<Note>>)
    ensures days == DaysOf(notes, dateKey)
    ensures forall k :: k in groups <==> k in days
    ensures forall k :: k in groups ==> groups[k] == OnDay(notes, dateKey, k)
  {
    days, groups := [], map[];
    for i := 0 to |notes|
      invariant GroupedAs(notes[..i], dateKey, days, groups)
    {
      var note := notes[i];
      var dayKey := dateKey(OriginalTimestamp(note));
      GroupStep(notes[..i], note, dateKey, days, groups);
      TakeOneMore(notes, i);
      if dayKey !in groups {
        groups := groups[dayKey := []];
        days := days + [dayKey];
      }
      groups := groups[dayKey := groups[dayKey] + [note]];
    }
    assert notes[..|notes|] == notes;
  }

  /** The groups of `days`, concatenated in heading order: the notes as the pane lists them. */
  function Rendered(days: seq<string>, groups: map<string, seq<Note>>): (r: seq<Note>)
    requires forall k :: k in days ==> k in groups
    ensures days != [] ==> groups[days[0]] <= r
  {
    if days == [] then [] else groups[days[0]] + Rendered(days[1..], groups)
  }

  /** A note occurs in the group of its own day as often as in the list, and in no other group. */
  lemma {:induction false} OnDayCount(s: seq<Note>, dateKey: string -> string, k: string, n: Note)
    ensures multiset(OnDay(s, dateKey, k))[n] == if DayOf(n, dateKey) == k then multiset(s)[n] else 0
  {
    if s != [] {
      OnDayCount(s[..|s| - 1], dateKey, k, n);
      assert s == s[..|s| - 1] + [s[|s| - 1]];
    }
  }

  lemma {:induction false} RenderedCount(s: seq<Note>, dateKey: string -> string, days: seq<string>,
                                         groups: map<string, seq<Note>>, n: Note)
    requires Distinct(days)
    requires forall k :: k in days ==> k in groups && groups[k] == OnDay(s, dateKey, k)
    ensures multiset(Rendered(days, groups))[n] == if DayOf(n, dateKey) in days then multiset(s)[n] else 0
  {
    if days != [] {
      assert Distinct(days[1..]);
      RenderedCount(s, dateKey, days[1..], groups, n);
      OnDayCount(s, dateKey, days[0], n);
      assert days[0] !in days[1..];
    }
  }

  /** Grouping loses no note and duplicates none: the groups, read in order, are a permutation of the list. */
  lemma GroupingPartitions(s: seq<Note>, dateKey: string -> string, groups: map<string, seq<Note>>)
    requires forall k :: k in DaysOf(s, dateKey) ==> k in groups && groups[k] == OnDay(s, dateKey, k)
    ensures multiset(Rendered(DaysOf(s, dateKey), groups)) == multiset(s)
  {
    var days := DaysOf(s, dateKey);
    forall n ensures multiset(Rendered(days, groups))[n] == multiset(s)[n] {
      RenderedCount(s, dateKey, days, groups, n);
      if n in s {
        var i :| 0 <= i < |s| && s[i] == n;
        DayListed(s, dateKey, i);
      }
    }
  }

  lemma {:induction false} RenderedPermutes(days: seq<string>, g1: map<string, seq<Note>>, g2: map<string, seq<Note>>)
    requires forall k :: k in days ==> k in g1 && k in g2 && multiset(g1[k]) == multiset(g2[k])
    ensures multiset(Rendered(days, g1)) == multiset(Rendered(days, g2))
  {
    if days != [] {
      RenderedPermutes(days[1..], g1, g2);
    }
  }

  // ---------------------------------------------------------------------------
  // Sorting within a day
  // ---------------------------------------------------------------------------

  predicate SortedBy(s: seq<Note>, timeOf: string -> int) {
    forall i, j :: 0 <= i < j < |s| ==> Key(s[i], timeOf) <= Key(s[j], timeOf)
  }

  /** The first `n` notes of `s` are in key order. */
  predicate SortedUpTo(s: seq<Note>, n: nat, timeOf: string -> int)
    requires n <= |s|
  {
    forall p, q :: 0 <= p < q < n ==> Key(s[p], timeOf) <= Key(s[q], timeOf)
  }

  /**
   * While the note at `j` sinks into `s[..i + 1]`: every other pair there is in
   * key order, and the sinking note is no later than anything to its right.
   */
  predicate SortedBut(s: seq<Note>, i: nat, j: nat, timeOf: string -> int)
    requires j <= i < |s|
  {
    && (forall p, q :: 0 <= p < q <= i && p != j && q != j ==> Key(s[p], timeOf) <= Key(s[q], timeOf))
    && (forall q :: j < q <= i ==> Key(s[j], timeOf) <= Key(s[q], timeOf))
  }

  lemma StartInsert(s: seq<Note>, i: nat, timeOf: string -> int)
    requires i < |s| && SortedUpTo(s, i, timeOf)
    ensures SortedBut(s, i, i, timeOf)
  {
  }

  /** Swapping the sinking note with a later-keyed left neighbour keeps the shape. */
  lemma SwapDown(s: seq<Note>, i: nat, j: nat, timeOf: string -> int)
    requires 0 < j <= i < |s| && SortedBut(s, i, j, timeOf)
    requires Key(s[j - 1], timeOf) > Key(s[j], timeOf)
    ensures SortedBut(s[j - 1 := s[j]][j := s[j - 1]], i, j - 1, timeOf)
  {
    var t := s[j - 1 := s[j]][j := s[j - 1]];
    forall p, q | 0 <= p < q <= i && p != j - 1 && q != j - 1
      ensures Key(t[p], timeOf) <= Key(t[q], timeOf)
    {
      if p == j {
        assert Key(t[p], timeOf) < Key(s[j - 1], timeOf) || Key(t[p], timeOf) == Key(s[j - 1], timeOf);
      }
    }
  }

  lemma EndInsert(s: seq<Note>, i: nat, j: nat, timeOf: string -> int)
    requires j <= i < |s| && SortedBut(s, i, j, timeOf)
    requires j == 0 || Key(s[j - 1], timeOf) <= Key(s[j], timeOf)
    ensures SortedUpTo(s, i + 1, timeOf)
  {
    forall p, q | 0 <= p < q < i + 1
      ensures Key(s[p], timeOf) <= Key(s[q], timeOf)
    {
      if q == j && p < j - 1 {
        assert Key(s[p], timeOf) <= Key(s[j - 1], timeOf);
      }
    }
  }

  /** Exchanges two adjacent elements of a group. */
  method Swap(a: array<Note>, i: nat)
    requires i + 1 < a.Length
    modifies a
    ensures a[..] == old(a[..])[i := old(a[i + 1])][i + 1 := old(a[i])]
    ensures multiset(a[..]) == multiset(old(a[..]))
  {
    a[i], a[i + 1] := a[i + 1], a[i];
  }

  /** The in-place `sort` of one group by original timestamp (an insertion sort). */
  method SortGroup(a: array<Note>, timeOf: string -> int)
    modifies a
    ensures SortedBy(a[..], timeOf)
    ensures multiset(a[..]) == multiset(old(a[..]))
  {
    var i := 0;
    while i < a.Length
      invariant 0 <= i <= a.Length
      invariant SortedUpTo(a[..], i, timeOf)
      invariant multiset(a[..]) == multiset(old(a[..]))
    {
      StartInsert(a[..], i, timeOf);
      var j := i;
      while j > 0 && Key(a[j - 1], timeOf) > Key(a[j], timeOf)
        invariant 0 <= j <= i
        invariant SortedBut(a[..], i, j, timeOf)
        invariant multiset(a[..]) == multiset(old(a[..]))
      {
        SwapDown(a[..], i, j, timeOf);
        Swap(a, j - 1);
        j := j - 1;
      }
      EndInsert(a[..], i, j, timeOf);
      i := i + 1;
    }
  }

  /** The `forEach` that sorts every group; the set of headings is unchanged. */
  method SortGroups(groups: map<string, seq<Note>>, timeOf: string -> int) returns (sorted: map<string, seq<Note>>)
    ensures sorted.Keys == groups.Keys
    ensures forall k :: k in sorted ==> SortedBy(sorted[k], timeOf) && multiset(sorted[k]) == multiset(groups[k])
  {
    sorted := groups;
    var todo := groups.Keys;
    while todo != {}
      invariant todo <= groups.Keys && sorted.Keys == groups.Keys
      invariant forall k :: k in sorted ==> multiset(sorted[k]) == multiset(groups[k])
      invariant forall k :: k in sorted && k !in todo ==> SortedBy(sorted[k], timeOf)
      decreases todo
    {
      var k :| k in todo;
      var g := sorted[k];
      var a := new Note[|g|](i requires 0 <= i < |g| => g[i]);
      assert a[..] == g;
      SortGroup(a, timeOf);
      sorted := sorted[k := a[..]];
      todo := todo - {k};
    }
  }

  /**
   * The notes of the pane as displayed: grouped by day, then each group sorted.
   * Every note lands in the group of its day, and the groups together are a
   * permutation of the fetched list.
   */
  method ArrangeNotes(notes: seq<Note>, dateKey: string -> string, timeOf: string -> int)
    returns (days: seq<string>, groups: map<string, seq<Note>>)
    ensures days == DaysOf(notes, dateKey)
    ensures forall k :: k in groups <==> k in days
    ensures forall k :: k in groups ==> SortedBy(groups[k], timeOf)
    ensures forall k :: k in groups ==> multiset(groups[k]) == multiset(OnDay(notes, dateKey, k))
    ensures multiset(Rendered(days, groups)) == multiset(notes)
  {
    var byDay;
    days, byDay := GroupNotes(notes, dateKey);
    groups := SortGroups(byDay, timeOf);
    GroupingPartitions(notes, dateKey, byDay);
    RenderedPermutes(days, groups, byDay);
  }

  // ---------------------------------------------------------------------------
  // Submit and edit guards, expanded histories
  // ---------------------------------------------------------------------------

  /** `handleSubmit`'s decision: the note to create, if any. */
  function SubmitRequest(selectedUserId: Option<string>, draft: string, tempId: string, now: string): (r: Option<CreateNoteInput>)
    ensures r.None? <==> !Truthy(selectedUserId) || Trim(draft) == []
    ensures r.Some? ==> r.value.member == selectedUserId.value && r.value.text == Trim(draft) && r.value.text != []
    ensures r.Some? ==> r.value.id == tempId && r.value.timestamp == now
  {
    if !Truthy(selectedUserId) || Trim(draft) == [] then None
    else Some(CreateNoteInput(tempId, selectedUserId.value, Trim(draft), now))
  }

  /** `handleUpdateNote`'s decision: the update to send, if any. */
  function UpdateRequest(note: Note, newText: string, now: string): (r: Option<UpdateNoteInput>)
    ensures r.None? <==> Trim(newText) == note.text
    ensures r.Some? ==> r.value.id == note.id && r.value.text == Trim(newText) && r.value.text != note.text
    ensures r.Some? ==> r.value.previousVersion.text == note.text
    ensures r.Some? ==> r.value.previousVersion.timestamp == if Truthy(note.timestamp) then note.timestamp.value else now
  {
    if Trim(newText) == note.text then None
    else Some(UpdateNoteInput(note.id, Trim(newText), NoteVersion(note.text, if Truthy(note.timestamp) then note.timestamp.value else now)))
  }

  /** `toggleVersions`' new set: membership of `id` flipped, every other id unchanged. */
  function Toggled(expanded: set<string>, id: string): (r: set<string>)
    ensures id in r <==> id !in expanded
    ensures forall x :: x != id ==> (x in r <==> x in expanded)
  {
    if id in expanded then expanded - {id} else expanded + {id}
  }

  lemma ToggleTwiceRestores(expanded: set<string>, id: string)
    ensures Toggled(Toggled(expanded, id), id) == expanded
  {
  }

  // ---------------------------------------------------------------------------
  // Edits as the server applies them
  // ---------------------------------------------------------------------------

  /** The note as stored after `handleUpdateNote` on the current copy and the server's `updateNote`. */
  function Edited(note: Note, newText: string, clientNow: string, serverNow: string): Note {
    var req := UpdateRequest(note, newText, clientNow);
    if req.Some? then Router.Versioned(note, req.value, serverNow) else note
  }

  /**
   * An edit through the pane keeps a note's original timestamp, and so its day
   * and its place in the sort, provided the note has a timestamp or a history.
   */
  lemma EditKeepsOriginalTimestamp(note: Note, newText: string, clientNow: string, serverNow: string)
    requires Truthy(note.timestamp) || |History(note)| > 0
    ensures OriginalTimestamp(Edited(note, newText, clientNow, serverNow)) == OriginalTimestamp(note)
  {
    var req := UpdateRequest(note, newText, clientNow);
    if req.Some? {
      var after := Router.Versioned(note, req.value, serverNow);
      if |History(note)| > 0 {
        assert History(after)[0] == History(after)[..|History(note)|][0];
      }
    }
  }

  /**
   * Without a timestamp or history, a note's original timestamp moves from the
   * default to the client's clock on its first real edit.
   */
  lemma UntimedNoteMovesOnEdit(note: Note, newText: string, clientNow: string, serverNow: string)
    requires !Truthy(note.timestamp) && History(note) == [] && Trim(newText) != note.text
    ensures OriginalTimestamp(note) == DefaultTimestamp
    ensures OriginalTimestamp(Edited(note, newText, clientNow, serverNow)) == clientNow
  {
    var req := UpdateRequest(note, newText, clientNow);
    var after := Router.Versioned(note, req.value, serverNow);
    assert History(after)[0] == History(after)[|History(note)|];
  }

  /** The stored note after a run of edits through the pane, each on the current copy. */
  function Replay(note: Note, edits: seq<(string, string, string)>): Note
    decreases |edits|
  {
    if edits == [] then note
    else Replay(Edited(note, edits[0].0, edits[0].1, edits[0].2), edits[1..])
  }

  /** However many edits a timestamped note receives, it stays under its first timestamp. */
  lemma {:induction false} ReplayKeepsOriginalTimestamp(note: Note, edits: seq<(string, string, string)>)
    requires Truthy(note.timestamp) || |History(note)| > 0
    ensures OriginalTimestamp(Replay(note, edits)) == OriginalTimestamp(note)
    decreases |edits|
  {
    if edits != [] {
      var next := Edited(note, edits[0].0, edits[0].1, edits[0].2);
      EditKeepsOriginalTimestamp(note, edits[0].0, edits[0].1, edits[0].2);
      assert Truthy(next.timestamp) || |History(next)| > 0;
      ReplayKeepsOriginalTimestamp(next, edits[1..]);
    }
  }

  /**
   * Saving the same text again after an edit, up to surrounding white space,
   * is a no-op: the stored text is the trimmed text.
   */
  lemma ResaveIsNoop(note: Note, newText: string, again: string, clientNow: string, serverNow: string, laterNow: string)
    ensures Trim(again) == Trim(newText) ==> UpdateRequest(Edited(note, newText, clientNow, serverNow), again, laterNow).None?
  {
    var req := UpdateRequest(note, newText, clientNow);
    if req.Some? && Trim(again) == Trim(newText) {
      assert Edited(note, newText, clientNow, serverNow).text == Trim(newText);
    }
  }

  /** A note that a pane submit creates starts without history, under the submit time. */
  lemma SubmittedNoteKeyedByCreation(selectedUserId: Option<string>, draft: string, tempId: string, now: string)
    requires SubmitRequest(selectedUserId, draft, tempId, now).Some?
    requires now != ""
    ensures var n := Router.Created(SubmitRequest(selectedUserId, draft, tempId, now).value);
            History(n) == [] && OriginalTimestamp(n) == now
  {
  }

  // ---------------------------------------------------------------------------
  // The pane's own state
  // ---------------------------------------------------------------------------

  class NotesPane {
    const store: Router.Store
    var newNote: string
    var editingNote: Option<Note>
    var expandedVersions: set<string>

    constructor (store: Router.Store)
      ensures this.store == store
      ensures newNote == "" && editingNote == None && expandedVersions == {}
    {
      this.store := store;
      newNote, editingNote, expandedVersions := "", None, {};
    }

    /**
     * `handleSubmit`: creates a note for the selected member from the trimmed
     * draft; the draft is cleared once the create succeeds.
     */
    method Submit(selectedUserId: Option<string>, tempId: string, now: string) returns (r: Option<Result<Note>>)
      requires store.Valid()
      modifies this, store
      ensures store.Valid()
      ensures var req := SubmitRequest(selectedUserId, old(newNote), tempId, now);
              && r.Some? == req.Some?
              && (req.None? ==> store.notes == old(store.notes) && store.noteOrder == old(store.noteOrder) && newNote == old(newNote))
              && (req.Some? ==> (r.value.Ok? <==> tempId !in old(store.notes)))
              && (req.Some? && r.value.Ok? ==>
                    && r.value.value == Router.Created(req.value)
                    && store.notes == old(store.notes)[tempId := r.value.value]
                    && store.noteOrder == old(store.noteOrder) + [tempId] && newNote == "")
              && (req.Some? && r.value.Err? ==> store.notes == old(store.notes) && store.noteOrder == old(store.noteOrder) && newNote == old(newNote))
      ensures store.members == old(store.members) && store.memberOrder == old(store.memberOrder)
      ensures editingNote == old(editingNote) && expandedVersions == old(expandedVersions)
    {
      if !Truthy(selectedUserId) || Trim(newNote) == [] {
        return None;
      }
      var created := store.CreateNote(CreateNoteInput(tempId, selectedUserId.value, Trim(newNote), now));
      if created.Ok? {
        newNote := "";
      }
      r := Some(created);
    }

    /**
     * `handleUpdateNote`: closes the editor without a call when the trimmed text
     * equals the note's text; otherwise sends the trimmed text with the note's
     * current text and timestamp (or the client's clock) as previous version,
     * and closes the editor once the update succeeds.
     */
    method SaveEdit(note: Note, newText: string, clientNow: string, serverNow: string) returns (r: Option<Result<Note>>)
      requires store.Valid()
      modifies this, store
      ensures store.Valid()
      ensures var req := UpdateRequest(note, newText, clientNow);
              && r.Some? == req.Some?
              && (req.None? ==> store.notes == old(store.notes) && editingNote == None)
              && (req.Some? ==> (r.value.Ok? <==> note.id in old(store.notes)))
              && (req.Some? && r.value.Ok? ==>
                    && r.value.value == Router.Versioned(old(store.notes)[note.id], req.value, serverNow)
                    && store.notes == old(store.notes)[note.id := r.value.value] && editingNote == None)
              && (req.Some? && r.value.Err? ==> store.notes == old(store.notes) && editingNote == old(editingNote))
      ensures store.noteOrder == old(store.noteOrder)
      ensures store.members == old(store.members) && store.memberOrder == old(store.memberOrder)
      ensures newNote == old(newNote) && expandedVersions == old(expandedVersions)
    {
      if Trim(newText) == note.text {
        editingNote := None;
        return None;
      }
      var previous := NoteVersion(note.text, if Truthy(note.timestamp) then note.timestamp.value else clientNow);
      var updated := store.UpdateNote(UpdateNoteInput(note.id, Trim(newText), previous), serverNow);
      if updated.Ok? {
        editingNote := None;
      }
      r := Some(updated);
    }

    /** `toggleVersions`: shows or hides one note's history. */
    method ToggleVersions(noteId: string)
      modifies this
      ensures expandedVersions == Toggled(old(expandedVersions), noteId)
      ensures newNote == old(newNote) && editingNote == old(editingNote)
    {
      var next := expandedVersions;
      if noteId in next {
        next := next - {noteId};
      } else {
        next := next + {noteId};
      }
      expandedVersions := next;
    }
  }
}
