/**
 * The main window: the list it shows, the set of entries whose deletion is
 * in flight, and the edit dialog, together with the handlers that delete and
 * edit an entry, take a history pushed by the main process and refresh the
 * list. Each handler receives the auth state of the render it closes over and
 * the objects (sync hook, remote store, local history) it calls into.
 */
module App {
  import opened Common
  import opened Strings
  import opened Domain
  import opened LocalHistory
  import opened SyncManager
  import opened RemoteStore
  import opened ClipboardSync
  import opened Auth

  class AppView {
    /** `clipboardHistory`: the list the window shows. */
    var view: seq<Item>
    /** `deletingItems`: ids whose deletion has started and not finished. */
    var deleting: set<string>
    /** `showModal`: the edit dialog is open. */
    var dialogOpen: bool

    constructor ()
      ensures view == [] && deleting == {} && !dialogOpen
    {
      view := [];
      deleting := {};
      dialogOpen := false;
    }

    /**
     * `handleDeleteItem`. A second request for an id already being deleted
     * does nothing. Otherwise the id is marked pending and dropped from the
     * list before any store is called; the local history is then asked to
     * delete it (`localFails`: that call throws), and, when signed in and not
     * offline, the remote store too, whose failures the hook records instead
     * of throwing. Either way the id stops being pending; after a failed
     * local call a signed-out window reloads the local history, while a
     * signed-in one keeps the filtered list for the subscription to repair.
     * `pendingAtLocalCall` and `viewAtLocalCall` are the pending set and the
     * list at the moment the local history is called.
     */
    method DeleteItem(id: string, auth: AuthState, sync: SyncHook, store: Firestore, history: HistoryStore,
                      localFails: bool, remoteFails: bool)
      returns (started: bool, pendingAtLocalCall: set<string>, viewAtLocalCall: seq<Item>, remoteCalled: bool)
      requires sync.Valid() && sync.user == auth.user
      modifies this, sync, store, history
      ensures sync.Valid() && sync.user == old(sync.user)
      ensures started <==> id !in old(deleting)
      ensures deleting == old(deleting) && dialogOpen == old(dialogOpen)
      ensures !started ==> view == old(view) && !remoteCalled && history.items == old(history.items)
      ensures started ==>
        pendingAtLocalCall == old(deleting) + {id} && viewAtLocalCall == WithoutPending(old(view), {id})
      ensures remoteCalled <==>
        started && !localFails && SignedIn(auth.user, auth.isLoading) && old(sync.state.syncStatus) != Offline
      ensures started && !localFails ==> history.items == Removed(old(history.items), id) && view == viewAtLocalCall
      ensures started && localFails ==>
        (history.items == old(history.items)
         && view == if SignedIn(auth.user, auth.isLoading) then viewAtLocalCall else old(history.items))
      ensures !remoteCalled ==> sync.state == old(sync.state) && store.db == old(store.db)
      ensures remoteCalled && auth.user.value.uid != "" && !remoteFails ==>
        store.db == WithoutDoc(old(store.db), auth.user.value.uid, id) && sync.state == old(sync.state)
      ensures remoteCalled && remoteFails ==>
        store.db == old(store.db) && sync.state == old(sync.state).(error := Some(DeleteError))
    {
      started := id !in deleting;
      pendingAtLocalCall, viewAtLocalCall, remoteCalled := deleting, view, false;
      if !started {
        return;
      }
      deleting := deleting + {id};
      view := WithoutPending(view, {id});
      pendingAtLocalCall, viewAtLocalCall := deleting, view;
      if localFails {
        deleting := deleting - {id};
        if !SignedIn(auth.user, auth.isLoading) {
          view := history.GetHistory();
        }
        return;
      }
      var _ := history.Delete(id);
      if SignedIn(auth.user, auth.isLoading) && sync.state.syncStatus != Offline {
        sync.DeleteItem(id, store, remoteFails);
        remoteCalled := true;
      }
      deleting := deleting - {id};
    }

    /**
     * `handleUpdateItem`: signed in, the new content goes to the remote store
     * only, through the hook, which records a refused update in `error`;
     * signed out, the local history is edited and the list reloaded from it.
     * The dialog closes unless the local call throws (`localFails`).
     */
    method UpdateItem(id: string, newContent: string, auth: AuthState, sync: SyncHook, store: Firestore,
                      history: HistoryStore, now: int, serverNow: int, localFails: bool, remoteFails: bool)
      requires sync.Valid() && sync.user == auth.user
      modifies this, sync, store, history
      ensures sync.Valid() && sync.user == old(sync.user)
      ensures deleting == old(deleting)
      ensures SignedIn(auth.user, auth.isLoading) ==>
        (!dialogOpen && view == old(view) && history.items == old(history.items)
         && sync.state.items == old(sync.state.items) && store.currentUser == old(store.currentUser))
      ensures SignedIn(auth.user, auth.isLoading) ==>
        var ok := store.currentUser.Some? && id in CollectionOf(old(store.db), store.currentUser.value) && !remoteFails;
        && (ok ==>
              (sync.state.error == old(sync.state.error)
               && store.db == old(store.db)[store.currentUser.value :=
                    old(store.db)[store.currentUser.value][id :=
                      Merged(old(store.db)[store.currentUser.value][id], Patch(Some(newContent), None, None), serverNow)]]))
        && (!ok ==> sync.state.error == Some(UpdateError) && store.db == old(store.db))
      ensures !SignedIn(auth.user, auth.isLoading) && localFails ==>
        (dialogOpen == old(dialogOpen) && view == old(view) && history.items == old(history.items)
         && sync.state == old(sync.state) && store.db == old(store.db))
      ensures !SignedIn(auth.user, auth.isLoading) && !localFails ==>
        (!dialogOpen && history.items == Updated(old(history.items), id, newContent, now) && view == history.items
         && sync.state == old(sync.state) && store.db == old(store.db))
    {
      if SignedIn(auth.user, auth.isLoading) {
        sync.UpdateItem(id, Patch(Some(newContent), None, None), store, serverNow, remoteFails);
      } else {
        if localFails {
          return;
        }
        var _ := history.Update(id, newContent, now);
        view := history.GetHistory();
      }
      dialogOpen := false;
    }

    /**
     * `handleClipboardUpdate`: signed in, the newest entry of the pushed
     * history is forwarded to the hook's `addItem` and the list is left
     * alone; signed out, the pushed history becomes the list as it is,
     * pending deletions included. The forwarded object is the one the handler
     * builds, so an entry without a favourite flag reaches the store with
     * `isFavorite` undefined, is refused, and the hook records the add error.
     */
    method OnClipboardPushed(history: seq<Item>, auth: AuthState, sync: SyncHook, store: Firestore,
                             newId: DocId, serverNow: int, fails: bool)
      returns (added: Option<DocId>)
      requires sync.Valid()
      requires store.currentUser.Some? ==> newId !in CollectionOf(store.db, store.currentUser.value)
      modifies this, sync, store
      ensures sync.Valid() && sync.user == old(sync.user)
      ensures deleting == old(deleting) && dialogOpen == old(dialogOpen)
      ensures store.currentUser == old(store.currentUser)
      ensures !SignedIn(auth.user, auth.isLoading) ==>
        view == history && added.None? && sync.state == old(sync.state) && store.db == old(store.db)
      ensures SignedIn(auth.user, auth.isLoading) ==> view == old(view)
      ensures history == [] ==> added.None? && store.db == old(store.db)
      ensures SignedIn(auth.user, auth.isLoading) && history != [] && sync.user.Some? ==>
        (added.Some? <==> store.currentUser.Some? && history[0].isFavorite.Some? && !fails)
      ensures SignedIn(auth.user, auth.isLoading) && history != [] && sync.user.Some? && added.None? ==>
        sync.state.error == Some(AddError) && store.db == old(store.db)
      ensures added.Some? ==> sync.state == old(sync.state)
      ensures added.Some? ==>
        (store.currentUser.Some? &&
         var u := store.currentUser.value;
         var n := ForwardedItemAsWritten(history[0]);
         added.value == newId && u in store.db && newId in store.db[u]
         && n.isFavorite != Undefined && store.db[u][newId] == AddedDoc(n, u, serverNow))
    {
      var action := RoutePush(auth.user, auth.isLoading, history);
      match action
      case Forward(item) =>
        added := sync.AddItem(item, store, newId, serverNow, fails);
      case Ignore =>
        added := None;
      case ShowHistory(h) =>
        view := h;
        added := None;
    }

    /**
     * The list effect of the sync manager: the list becomes what `loadItems`
     * chooses from the hook's remote entries and the local history, or stays.
     * Signed in, a non-empty remote list wins; an empty one that has loaded
     * gives way to the local history; while it loads, or when the history
     * read fails, the list stays. Signed out, the local history is shown once
     * auth has loaded and it could be read.
     */
    method RefreshView(auth: AuthState, sync: SyncHook, local: Result<seq<Item>>)
      modifies this
      ensures deleting == old(deleting) && dialogOpen == old(dialogOpen)
      ensures auth.isLoading ==> view == old(view)
      ensures forall k | 0 <= k < |view| :: view[k].id !in deleting || view == old(view)
      ensures SignedIn(auth.user, auth.isLoading) && |sync.state.items| > 0 ==>
        view == WithoutPending(sync.state.items, deleting)
      ensures SignedIn(auth.user, auth.isLoading) && |sync.state.items| == 0 && !sync.state.isLoading && local.Ok? ==>
        view == WithoutPending(local.value, deleting)
      ensures SignedIn(auth.user, auth.isLoading) && |sync.state.items| == 0 && (sync.state.isLoading || local.Err?) ==>
        view == old(view)
      ensures !SignedIn(auth.user, auth.isLoading) && !auth.isLoading && local.Ok? ==>
        view == WithoutPending(local.value, deleting)
      ensures !SignedIn(auth.user, auth.isLoading) && local.Err? ==> view == old(view)
    {
      var u := LoadItems(auth.user, auth.isLoading, sync.state.items, sync.state.isLoading, local, deleting);
      if u.Replace? {
        view := u.view;
      }
    }
  }

  // ---------------------------------------------------------------------------
  // The remote list the window shows.

  /** Each entry is a document of `coll`, each document at most once, newest first by stored `createdAt`. */
  predicate NewestFirstIn(items: seq<Item>, coll: map<DocId, Doc>)
  {
    && (forall i | 0 <= i < |items| :: items[i].id in coll)
    && (forall i, j | 0 <= i < j < |items| :: items[i].id != items[j].id)
    && (forall i, j | 0 <= i < j < |items| :: coll[items[i].id].createdAt >= coll[items[j].id].createdAt)
  }

  /** Dropping the entries pending deletion keeps the rest newest first. */
  lemma {:induction false} WithoutPendingNewestFirst(items: seq<Item>, coll: map<DocId, Doc>, deleting: set<string>)
    requires NewestFirstIn(items, coll)
    ensures NewestFirstIn(WithoutPending(items, deleting), coll)
  {
    if items != [] {
      var tail := items[1..];
      assert NewestFirstIn(tail, coll);
      WithoutPendingNewestFirst(tail, coll, deleting);
      var rest := WithoutPending(tail, deleting);
      if items[0].id !in deleting {
        var r := [items[0]] + rest;
        forall j | 0 < j < |r|
          ensures r[0].id != r[j].id && coll[r[0].id].createdAt >= coll[r[j].id].createdAt
        {
          WithoutPendingSelects(tail, deleting, r[j]);
          var k :| 0 <= k < |tail| && tail[k] == r[j];
          assert items[k + 1] == r[j];
        }
      }
    }
  }

  /**
   * When the hook's items are a read of the signed-in user's collection (the
   * snapshot `subscribeToClipboardItems` delivers), the list the window shows
   * with a non-empty remote list, `WithoutPending(sync.state.items, deleting)`
   * by `RefreshView`, holds every document not pending deletion exactly once,
   * each as the read maps it, newest first by stored `createdAt`.
   */
  lemma RemoteViewNewestFirst(coll: map<DocId, Doc>, now: int, deleting: set<string>)
    ensures var v := WithoutPending(ReadItems(coll, now), deleting);
      && NewestFirstIn(v, coll)
      && (forall i | 0 <= i < |v| :: v[i].id !in deleting && v[i] == ReadItem(v[i].id, coll[v[i].id], now))
      && (forall id | id in coll && id !in deleting :: exists i :: 0 <= i < |v| && v[i].id == id)
  {
    var items := ReadItems(coll, now);
    var v := WithoutPending(items, deleting);
    ReadItemsOrdered(coll, now);
    ReadItemsAreDocs(coll, now);
    WithoutPendingNewestFirst(items, coll, deleting);
    forall i | 0 <= i < |v| ensures v[i] == ReadItem(v[i].id, coll[v[i].id], now) {
      WithoutPendingSelects(items, deleting, v[i]);
    }
    forall id | id in coll && id !in deleting ensures exists i :: 0 <= i < |v| && v[i].id == id {
      var k :| 0 <= k < |items| && items[k].id == id;
      WithoutPendingSelects(items, deleting, items[k]);
      var i :| 0 <= i < |v| && v[i] == items[k];
    }
  }

  // ---------------------------------------------------------------------------
  // A fresh capture reaching the remote store.

  /**
   * As written, the handler forwards a capture of the main process with
   * `isFavorite: undefined`, so a signed-in user's first capture is refused
   * by the store and the hook records the add error.
   */
  method ForwardedCaptureRejected(content: string, id: string, now: int, newId: DocId, serverNow: int)
    returns (added: Option<DocId>, error: Option<string>)
    requires !AllWhitespace(content)
    ensures added.None? && error == Some(AddError)
  {
    var history := new HistoryStore();
    var stored := history.Capture(content, id, now);
    var user := AuthUser("u", false, None);
    var store := new Firestore(Some(user.uid));
    var sync := new SyncHook(Some(user));
    var app := new AppView();
    added := app.OnClipboardPushed(history.items, AuthState(Some(user), false, false, None), sync, store,
                                   newId, serverNow, false);
    error := sync.state.error;
  }

  /**
   * With `isFavorite` left out when the entry has none, the same capture is
   * stored remotely under the new id with its content.
   */
  method ForwardedCaptureStored(content: string, id: string, now: int, newId: DocId, serverNow: int)
    returns (added: Option<DocId>, error: Option<string>, remoteContent: Option<string>)
    requires !AllWhitespace(content)
    ensures added == Some(newId) && error.None? && remoteContent == Some(content)
  {
    var history := new HistoryStore();
    var stored := history.Capture(content, id, now);
    var user := AuthUser("u", false, None);
    var store := new Firestore(Some(user.uid));
    var sync := new SyncHook(Some(user));
    added := sync.AddItem(ForwardedItem(history.items[0]), store, newId, serverNow, false);
    error := sync.state.error;
    remoteContent := Some(store.db[user.uid][newId].content);
  }
}
