/**
 * The two effects of the sync manager component: choosing the list the
 * window shows, and routing each history the main process pushes.
 */
module SyncManager {
  import opened Common
  import opened Domain

  /** "Authenticated" as the component tests it: a user is set and auth is not loading. */
  predicate SignedIn(user: Option<AuthUser>, authLoading: bool)
  {
    user.Some? && !authLoading
  }

  /** `items.filter(item => !deletingItems.has(item.id))`. */
  function WithoutPending(items: seq<Item>, deleting: set<string>): (r: seq<Item>)
    ensures |r| <= |items|
    ensures forall k | 0 <= k < |r| :: r[k].id !in deleting
  {
    if items == [] then []
    else if items[0].id !in deleting then [items[0]] + WithoutPending(items[1..], deleting)
    else WithoutPending(items[1..], deleting)
  }

  /** The filter keeps exactly the entries not pending deletion, in their order. */
  lemma {:induction false} WithoutPendingSelects(items: seq<Item>, deleting: set<string>, x: Item)
    ensures IsSubsequence(WithoutPending(items, deleting), items)
    ensures x in WithoutPending(items, deleting) <==> x in items && x.id !in deleting
  {
    if items != [] {
      var rest := WithoutPending(items[1..], deleting);
      WithoutPendingSelects(items[1..], deleting, x);
      assert x in items <==> x == items[0] || x in items[1..] by {
        assert items == [items[0]] + items[1..];
      }
      if items[0].id !in deleting {
        assert ([items[0]] + rest)[1..] == rest;
      } else {
        SubsequencePrepend(rest, items[1..], items[0]);
        assert [items[0]] + items[1..] == items;
      }
    }
  }

  /** With nothing pending, the filter changes nothing. */
  lemma {:induction false} WithoutNothingPending(items: seq<Item>)
    ensures WithoutPending(items, {}) == items
  {
    if items != [] {
      WithoutNothingPending(items[1..]);
      assert [items[0]] + items[1..] == items;
    }
  }

  /** What `loadItems` does to the shown list. */
  datatype ViewUpdate = Unchanged | Replace(view: seq<Item>)

  /**
   * `loadItems`: remote entries when signed in and the remote list is
   * non-empty; the local history when signed in and the remote list is empty
   * and loaded, or when signed out; nothing while auth (or, for an empty
   * remote list, the remote read) is loading. `local` is the history the main
   * process returns, or the error its call throws, which the effect only logs.
   */
  function LoadItems(user: Option<AuthUser>, authLoading: bool, remote: seq<Item>, remoteLoading: bool,
                     local: Result<seq<Item>>, deleting: set<string>): (u: ViewUpdate)
    ensures u.Replace? ==> forall k | 0 <= k < |u.view| :: u.view[k].id !in deleting
    ensures authLoading ==> u == Unchanged
  {
    if SignedIn(user, authLoading) then
      if |remote| > 0 then Replace(WithoutPending(remote, deleting))
      else if !remoteLoading && local.Ok? then Replace(WithoutPending(local.value, deleting))
      else Unchanged
    else if !authLoading && local.Ok? then Replace(WithoutPending(local.value, deleting))
    else Unchanged
  }

  /**
   * The shown list comes from the remote entries exactly when signed in with a
   * non-empty remote list, and otherwise from the local history; either way it
   * keeps exactly the source's entries that are not pending deletion, in order.
   */
  lemma LoadItemsSource(user: Option<AuthUser>, authLoading: bool, remote: seq<Item>, remoteLoading: bool,
                        local: Result<seq<Item>>, deleting: set<string>, x: Item)
    ensures var u := LoadItems(user, authLoading, remote, remoteLoading, local, deleting);
      && (SignedIn(user, authLoading) && |remote| > 0 ==>
          u.Replace? && IsSubsequence(u.view, remote) && (x in u.view <==> x in remote && x.id !in deleting))
      && (u.Replace? && !(SignedIn(user, authLoading) && |remote| > 0) ==>
          local.Ok? && IsSubsequence(u.view, local.value) && (x in u.view <==> x in local.value && x.id !in deleting))
  {
    WithoutPendingSelects(remote, deleting, x);
    if local.Ok? {
      WithoutPendingSelects(local.value, deleting, x);
    }
  }

  /**
   * The list is left as it is exactly while auth is loading, while a signed-in
   * user's empty remote list is still loading, or when the history read fails.
   */
  lemma LoadItemsUnchangedIff(user: Option<AuthUser>, authLoading: bool, remote: seq<Item>, remoteLoading: bool,
                              local: Result<seq<Item>>, deleting: set<string>)
    ensures LoadItems(user, authLoading, remote, remoteLoading, local, deleting) == Unchanged <==>
      authLoading
      || (user.Some? && |remote| == 0 && (remoteLoading || local.Err?))
      || (user.None? && local.Err?)
  {
  }

  // ---------------------------------------------------------------------------
  // `handleClipboardUpdate`.

  /** JavaScript's `item.createdAt || item.timestamp`: an absent or zero `createdAt` falls back. */
  function CreatedAtOrTimestamp(item: Item): (t: int)
    ensures item.createdAt.Some? && item.createdAt.value != 0 ==> t == item.createdAt.value
    ensures item.createdAt.None? || item.createdAt.value == 0 ==> t == item.timestamp
  {
    if item.createdAt.Some? && item.createdAt.value != 0 then item.createdAt.value else item.timestamp
  }

  /**
   * The object literal the handler sends to `addItem`, as written:
   * `isFavorite: newItem.isFavorite` puts the key in the object even when the
   * entry has no such flag, with the value `undefined`.
   */
  function ForwardedItemAsWritten(item: Item): (n: NewItem)
    ensures item.isFavorite.None? ==> n.isFavorite == Undefined
  {
    NewItem(item.content, item.timestamp, item.kind, CreatedAtOrTimestamp(item),
      if item.isFavorite.Some? then Defined(item.isFavorite.value) else Undefined)
  }

  /** The object the handler evidently means to send: `isFavorite` only when the entry has one. */
  function ForwardedItem(item: Item): (n: NewItem)
    ensures n.isFavorite != Undefined
    ensures n.content == item.content && n.timestamp == item.timestamp && n.kind == item.kind
    ensures n.isFavorite == Missing <==> item.isFavorite.None?
    ensures n.isFavorite.Defined? ==> n.isFavorite.value == item.isFavorite.value
  {
    NewItem(item.content, item.timestamp, item.kind, CreatedAtOrTimestamp(item),
      if item.isFavorite.Some? then Defined(item.isFavorite.value) else Missing)
  }

  /** The two objects differ only where the entry has no favourite flag. */
  lemma ForwardedItemAgrees(item: Item)
    ensures item.isFavorite.Some? ==> ForwardedItem(item) == ForwardedItemAsWritten(item)
    ensures ForwardedItem(item).isFavorite.Missing? <==> ForwardedItemAsWritten(item).isFavorite.Undefined?
  {
  }

  /** What the handler does with one pushed history. */
  datatype PushAction = Forward(item: NewItem) | Ignore | ShowHistory(history: seq<Item>)

  /**
   * `handleClipboardUpdate`: signed in, it forwards only the newest entry
   * (and nothing for an empty history) and leaves the list alone; signed out,
   * it shows the pushed history as it is, without the pending-delete filter.
   * The forwarded object is the one the handler builds, so an entry without
   * a favourite flag is sent with `isFavorite` undefined; with the flag it is
   * the intended object.
   */
  function RoutePush(user: Option<AuthUser>, authLoading: bool, history: seq<Item>): (a: PushAction)
    ensures SignedIn(user, authLoading) ==> !a.ShowHistory?
    ensures SignedIn(user, authLoading) && history != [] ==>
      (a.Forward? && a.item.content == history[0].content
       && a.item.timestamp == history[0].timestamp && a.item.kind == history[0].kind
       && a.item.createdAt == CreatedAtOrTimestamp(history[0])
       && (a.item.isFavorite == Undefined <==> history[0].isFavorite.None?)
       && (history[0].isFavorite.Some? ==> a.item == ForwardedItem(history[0])))
    ensures a.Ignore? <==> SignedIn(user, authLoading) && history == []
    ensures !SignedIn(user, authLoading) ==> a == ShowHistory(history)
  {
    if SignedIn(user, authLoading) then
      if history != [] then Forward(ForwardedItemAsWritten(history[0])) else Ignore
    else ShowHistory(history)
  }

  /** A forwarded capture of the main process carries its own timestamp as `createdAt`. */
  lemma ForwardedCaptureCreatedAt(user: Option<AuthUser>, authLoading: bool, history: seq<Item>)
    requires SignedIn(user, authLoading) && history != [] && history[0].createdAt.None?
    ensures RoutePush(user, authLoading, history).item.createdAt == history[0].timestamp
  {
  }
}
