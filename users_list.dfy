/**
 * The users pane as a state machine over the member being edited and the
 * selected member id, driving the member procedures of the store.
 */
module UsersList {
  import opened Records
  import Router

  /** The member being edited; `isNew` marks one not yet created in the store. */
  datatype EditingUser = EditingUser(id: string, firstName: string, lastName: string, isNew: bool)

  /** The record sent to `createUser` or `updateUser`. */
  function AsMember(e: EditingUser): Member {
    Member(e.id, e.firstName, e.lastName)
  }

  class UsersPane {
    const store: Router.Store
    var editingUser: Option<EditingUser>
    /** The selection held by the page and set through `onSelectUser`. */
    var selectedUser: Option<string>

    constructor (store: Router.Store)
      ensures this.store == store && editingUser == None && selectedUser == None
    {
      this.store := store;
      editingUser, selectedUser := None, None;
    }

    /**
     * The effect that selects the first listed member once the list has loaded
     * (`users` is None while loading) and nothing is selected.
     */
    method SelectFirst(users: Option<seq<Member>>)
      modifies this
      ensures selectedUser == if users.Some? && |users.value| > 0 && !Truthy(old(selectedUser))
                              then Some(users.value[0].id) else old(selectedUser)
      ensures editingUser == old(editingUser)
    {
      if users.Some? && |users.value| > 0 && !Truthy(selectedUser) {
        selectedUser := Some(users.value[0].id);
      }
    }

    /** Clicking a member in the list. */
    method Select(userId: string)
      modifies this
      ensures selectedUser == Some(userId) && editingUser == old(editingUser)
    {
      selectedUser := Some(userId);
    }

    /** A change in the edit fields, or the edit button, as reported by a list item. */
    method Edit(edited: EditingUser)
      modifies this
      ensures editingUser == Some(edited) && selectedUser == old(selectedUser)
    {
      editingUser := Some(edited);
    }

    /** `handleNewUser`: opens an empty new member under `tempId` and selects it. */
    method NewUser(tempId: string)
      modifies this
      ensures editingUser == Some(EditingUser(tempId, "", "", true))
      ensures selectedUser == Some(tempId)
    {
      editingUser := Some(EditingUser(tempId, "", "", true));
      selectedUser := Some(tempId);
    }

    /**
     * `handleSave`: nothing without an edited member; otherwise creates it when
     * new and updates it when not, and closes the editor once the call succeeds.
     * `r` is the store's answer, None when no call was made.
     */
    method Save() returns (r: Option<Result<Member>>)
      requires store.Valid()
      modifies this, store
      ensures store.Valid()
      ensures old(editingUser).None? ==> r.None? && editingUser == None
      ensures old(editingUser).None? ==> store.members == old(store.members) && store.memberOrder == old(store.memberOrder)
      ensures old(editingUser).Some? ==>
                var e := old(editingUser).value;
                && r.Some?
                && (r.value.Ok? <==> (e.id in old(store.members)) != e.isNew)
                && (r.value.Ok? ==> r.value.value == AsMember(e) && store.members == old(store.members)[e.id := AsMember(e)])
                && (r.value.Err? ==> r.value.error == (if e.isNew then DuplicateId else NotFound) && store.members == old(store.members))
                && store.memberOrder == (if r.value.Ok? && e.isNew then old(store.memberOrder) + [e.id] else old(store.memberOrder))
                && editingUser == (if r.value.Ok? then None else old(editingUser))
      ensures selectedUser == old(selectedUser)
      ensures store.notes == old(store.notes) && store.noteOrder == old(store.noteOrder)
    {
      if editingUser.None? {
        return None;
      }
      var e := editingUser.value;
      var saved;
      if e.isNew {
        saved := store.CreateUser(AsMember(e));
      } else {
        saved := store.UpdateUser(AsMember(e));
      }
      if saved.Ok? {
        editingUser := None;
      }
      r := Some(saved);
    }

    /** `handleCancel`: closes the editor; a cancelled new member is also unselected. */
    method Cancel()
      modifies this
      ensures editingUser == None
      ensures selectedUser == if old(editingUser).Some? && old(editingUser).value.isNew then None else old(selectedUser)
    {
      var cancelled := editingUser;
      editingUser := None;
      if cancelled.Some? && cancelled.value.isNew {
        selectedUser := None;
      }
    }

    /**
     * `handleDelete`: deletes the member; once that succeeds the selection is
     * cleared if, and only if, it was the deleted member.
     */
    method Delete(userId: string) returns (r: Result<()>)
      requires store.Valid()
      modifies this, store
      ensures store.Valid()
      ensures r == if userId in old(store.members) then Ok(()) else Err(NotFound)
      ensures store.members == old(store.members) - {userId}
      ensures store.memberOrder == Router.Without(old(store.memberOrder), userId)
      ensures selectedUser == if r.Ok? && old(selectedUser) == Some(userId) then None else old(selectedUser)
      ensures editingUser == old(editingUser)
      ensures store.notes == old(store.notes) && store.noteOrder == old(store.noteOrder)
    {
      r := store.DeleteUser(userId);
      if r.Ok? && selectedUser == Some(userId) {
        selectedUser := None;
      }
    }
  }
}
