/**
 * The sync hook: the `{items, isLoading, error, syncStatus}` record the
 * window reads, the subscription effect that rewrites it, and the three
 * remote actions, whose failures end up in `error` instead of being thrown.
 */
module ClipboardSync {
  import opened Common
  import opened Domain
  import opened RemoteStore

  datatype SyncStatus = Synced | Syncing | Offline | Error

  /** `ClipboardSyncState`. */
  datatype SyncState = SyncState(items: seq<Item>, isLoading: bool, error: Option<string>, syncStatus: SyncStatus)

  const InitialState: SyncState := SyncState([], true, None, Syncing)

  const NoUserError: string := "Usuario no autenticado"
  const SubscribeError: string := "Error al sincronizar con Firestore"
  const AddError: string := "Error al añadir item"
  const UpdateError: string := "Error al actualizar item"
  const DeleteError: string := "Error al eliminar item"

  /**
   * What every reachable state satisfies: a settled status (`synced` or
   * `error`) is never loading, and an `error` status always carries a message.
   */
  predicate Consistent(s: SyncState)
  {
    (s.syncStatus == Synced || s.syncStatus == Error ==> !s.isLoading)
    && (s.syncStatus == Error ==> s.error.Some?)
  }

  lemma InitialConsistent()
    ensures Consistent(InitialState) && InitialState.isLoading && InitialState.items == []
  {
  }

  class SyncHook {
    /** The `user` the hook was last rendered with. */
    var user: Option<AuthUser>
    var state: SyncState
    /** The snapshot listener of the current effect is registered. */
    var subscribed: bool
    /** The `online`/`offline` listeners of the current effect are registered. */
    var listening: bool

    /** Everything the effect and the events keep true. */
    predicate Valid()
      reads this
    {
      Consistent(state)
      && (subscribed ==> user.Some? && listening)
      && (state.syncStatus == Synced ==> subscribed)
    }

    constructor(u: Option<AuthUser>)
      ensures Valid()
      ensures user == u && state == InitialState && !subscribed && !listening
    {
      user := u;
      state := InitialState;
      subscribed := false;
      listening := false;
    }

    /**
     * The effect that runs when the user's uid changes: the previous
     * subscription and listeners go; with no user the state records the
     * error; otherwise the state goes back to loading and a new subscription
     * is attempted, whose synchronous failure records an error.
     */
    method OnUserChanged(u: Option<AuthUser>, subscribeFails: bool)
      requires Valid()
      modifies this
      ensures Valid()
      ensures user == u && state.items == old(state.items)
      ensures u.None? ==>
        state == old(state).(isLoading := false, syncStatus := Error, error := Some(NoUserError))
        && !subscribed && !listening
      ensures u.Some? && subscribeFails ==>
        state == old(state).(isLoading := false, syncStatus := Error, error := Some(SubscribeError))
        && !subscribed && listening
      ensures u.Some? && !subscribeFails ==>
        state == old(state).(isLoading := true, syncStatus := Syncing) && subscribed && listening
    {
      user := u;
      subscribed := false;
      listening := false;
      if u.None? {
        state := state.(isLoading := false, syncStatus := Error, error := Some(NoUserError));
        return;
      }
      state := state.(isLoading := true, syncStatus := Syncing);
      if subscribeFails {
        state := state.(isLoading := false, syncStatus := Error, error := Some(SubscribeError));
      } else {
        subscribed := true;
      }
      listening := true;
    }

    /** A snapshot replaces the items wholesale and settles the status; `error` stays. */
    method OnSnapshot(items: seq<Item>)
      requires Valid()
      modifies this
      ensures Valid()
      ensures user == old(user) && subscribed == old(subscribed) && listening == old(listening)
      ensures old(subscribed) ==> state == old(state).(items := items, isLoading := false, syncStatus := Synced)
      ensures !old(subscribed) ==> state == old(state)
    {
      if subscribed {
        state := state.(items := items, isLoading := false, syncStatus := Synced);
      }
    }

    /** The `online` event: back to `syncing`, nothing else changes. */
    method OnOnline()
      requires Valid()
      modifies this
      ensures Valid()
      ensures user == old(user) && subscribed == old(subscribed) && listening == old(listening)
      ensures state == if old(listening) then old(state).(syncStatus := Syncing) else old(state)
    {
      if listening {
        state := state.(syncStatus := Syncing);
      }
    }

    /** The `offline` event: `offline`, nothing else changes. */
    method OnOffline()
      requires Valid()
      modifies this
      ensures Valid()
      ensures user == old(user) && subscribed == old(subscribed) && listening == old(listening)
      ensures state == if old(listening) then old(state).(syncStatus := Offline) else old(state)
    {
      if listening {
        state := state.(syncStatus := Offline);
      }
    }

    /**
     * `addItem`: with no user, records the error and writes nothing; otherwise
     * adds the item to the store, answering the new id, or `None` after
     * recording the failure.
     */
    method AddItem(item: NewItem, store: Firestore, newId: DocId, serverNow: int, fails: bool)
      returns (id: Option<DocId>)
      requires Valid()
      requires store.currentUser.Some? ==> newId !in CollectionOf(store.db, store.currentUser.value)
      modifies this, store
      ensures Valid()
      ensures user == old(user) && subscribed == old(subscribed) && listening == old(listening)
      ensures state.items == old(state.items) && state.isLoading == old(state.isLoading)
      ensures state.syncStatus == old(state.syncStatus)
      ensures store.currentUser == old(store.currentUser)
      ensures user.None? ==> id.None? && state.error == Some(NoUserError) && store.db == old(store.db)
      ensures user.Some? ==> (id.Some? <==> store.currentUser.Some? && item.isFavorite != Undefined && !fails)
      ensures user.Some? && id.None? ==> state.error == Some(AddError) && store.db == old(store.db)
      ensures id.Some? ==>
        id.value == newId && state.error == old(state.error)
        && store.db == old(store.db)[store.currentUser.value :=
             CollectionOf(old(store.db), store.currentUser.value)[newId := AddedDoc(item, store.currentUser.value, serverNow)]]
    {
      if user.None? {
        state := state.(error := Some(NoUserError));
        return None;
      }
      var r := store.Add(item, newId, serverNow, fails);
      if r.Err? {
        state := state.(error := Some(AddError));
        return None;
      }
      id := Some(r.value);
    }

    /** `updateItem`: the same guard; a failed update is recorded in `error`. */
    method UpdateItem(itemId: DocId, patch: Patch, store: Firestore, serverNow: int, fails: bool)
      requires Valid()
      modifies this, store
      ensures Valid()
      ensures user == old(user) && subscribed == old(subscribed) && listening == old(listening)
      ensures state.items == old(state.items) && state.isLoading == old(state.isLoading)
      ensures state.syncStatus == old(state.syncStatus)
      ensures store.currentUser == old(store.currentUser)
      ensures user.None? ==> state.error == Some(NoUserError) && store.db == old(store.db)
      ensures user.Some? ==>
        var ok := store.currentUser.Some? && itemId in CollectionOf(old(store.db), store.currentUser.value) && !fails;
        && (ok ==>
              (state.error == old(state.error)
               && store.db == old(store.db)[store.currentUser.value :=
                    old(store.db)[store.currentUser.value][itemId :=
                      Merged(old(store.db)[store.currentUser.value][itemId], patch, serverNow)]]))
        && (!ok ==> state.error == Some(UpdateError) && store.db == old(store.db))
    {
      if user.None? {
        state := state.(error := Some(NoUserError));
        return;
      }
      var r := store.Update(itemId, patch, serverNow, fails);
      if r.Err? {
        state := state.(error := Some(UpdateError));
      }
    }

    /**
     * `deleteItem`: the same guard; the delete names the hook's own user as
     * the owner, so it never depends on who the store thinks is signed in.
     */
    method DeleteItem(itemId: DocId, store: Firestore, fails: bool)
      requires Valid()
      modifies this, store
      ensures Valid()
      ensures user == old(user) && subscribed == old(subscribed) && listening == old(listening)
      ensures state.items == old(state.items) && state.isLoading == old(state.isLoading)
      ensures state.syncStatus == old(state.syncStatus)
      ensures store.currentUser == old(store.currentUser)
      ensures user.None? ==> state.error == Some(NoUserError) && store.db == old(store.db)
      ensures user.Some? && user.value.uid != "" && !fails ==>
        state.error == old(state.error) && store.db == WithoutDoc(old(store.db), user.value.uid, itemId)
      ensures user.Some? && user.value.uid == "" && store.currentUser.None? ==>
        state.error == Some(DeleteError) && store.db == old(store.db)
      ensures user.Some? && fails ==> state.error == Some(DeleteError) && store.db == old(store.db)
    {
      if user.None? {
        state := state.(error := Some(NoUserError));
        return;
      }
      var r := store.Delete(itemId, Some(user.value.uid), fails);
      if r.Err? {
        state := state.(error := Some(DeleteError));
      }
    }
  }
}
