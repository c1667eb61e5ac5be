/**
 * The remote store: one `clipboard/{uid}/items` collection per user, each a
 * map from document id to document. Server timestamps, fresh document ids
 * and the outcome of each network write are parameters of the operations.
 */
module RemoteStore {
  import opened Common
  import opened Domain

  type DocId = string

  /** A stored document: the entry's fields plus the tags the writers add. */
  datatype Doc = Doc(
    content: string,
    timestamp: int,
    kind: ItemType,
    createdAt: int,
    isFavorite: Option<bool>,
    userId: Uid,
    updatedAt: Option<int>,
    migratedFrom: Option<Uid>,
    migratedAt: Option<int>)

  /** The fields an update may carry (`Partial<ClipboardItem>`); `None` leaves a field alone. */
  datatype Patch = Patch(content: Option<string>, timestamp: Option<int>, isFavorite: Option<bool>)

  type Db = map<Uid, map<DocId, Doc>>

  /** A user's collection; a user with no documents has an empty one. */
  function CollectionOf(db: Db, uid: Uid): (c: map<DocId, Doc>)
    ensures uid !in db ==> c == map[]
  {
    if uid in db then db[uid] else map[]
  }

  const NotSignedIn: string := "Usuario no autenticado"

  // ---------------------------------------------------------------------------
  // Writes.

  /**
   * The document `addClipboardItem` writes: the item's fields, `createdAt`
   * overwritten by the server time and `userId` set to the writer.
   */
  function AddedDoc(item: NewItem, uid: Uid, serverNow: int): (d: Doc)
    requires item.isFavorite != Undefined
    ensures d.content == item.content && d.timestamp == item.timestamp && d.kind == item.kind
    ensures d.createdAt == serverNow && d.userId == uid
    ensures d.isFavorite.Some? <==> item.isFavorite.Defined?
    ensures d.updatedAt.None? && d.migratedFrom.None? && d.migratedAt.None?
  {
    Doc(item.content, item.timestamp, item.kind, serverNow,
      if item.isFavorite.Defined? then Some(item.isFavorite.value) else None,
      uid, None, None, None)
  }

  /** `{...data, updatedAt: serverTimestamp()}` merged into a document. */
  function Merged(d: Doc, patch: Patch, serverNow: int): (m: Doc)
    ensures m.content == (if patch.content.Some? then patch.content.value else d.content)
    ensures m.timestamp == (if patch.timestamp.Some? then patch.timestamp.value else d.timestamp)
    ensures m.isFavorite == (if patch.isFavorite.Some? then patch.isFavorite else d.isFavorite)
    ensures m.updatedAt == Some(serverNow)
    ensures m.kind == d.kind && m.createdAt == d.createdAt && m.userId == d.userId
    ensures m.migratedFrom == d.migratedFrom && m.migratedAt == d.migratedAt
  {
    d.(content := if patch.content.Some? then patch.content.value else d.content,
       timestamp := if patch.timestamp.Some? then patch.timestamp.value else d.timestamp,
       isFavorite := if patch.isFavorite.Some? then patch.isFavorite else d.isFavorite,
       updatedAt := Some(serverNow))
  }

  /** An empty patch only stamps `updatedAt`. */
  lemma MergeEmptyPatch(d: Doc, serverNow: int)
    ensures Merged(d, Patch(None, None, None), serverNow) == d.(updatedAt := Some(serverNow))
  {
  }

  /** The owner `deleteClipboardItem` acts for: a non-empty explicit id, else the signed-in user. */
  function DeleteOwner(userId: Option<Uid>, current: Option<Uid>): (o: Option<Uid>)
    ensures userId.Some? && userId.value != "" ==> o == userId
    ensures !(userId.Some? && userId.value != "") ==> o == current
  {
    if userId.Some? && userId.value != "" then userId else current
  }

  /** `db` with document `id` gone from `uid`'s collection. */
  function WithoutDoc(db: Db, uid: Uid, id: DocId): (r: Db)
    ensures r.Keys == db.Keys
    ensures id !in CollectionOf(r, uid)
    ensures forall u | u in db && u != uid :: r[u] == db[u]
    ensures forall x | x in CollectionOf(db, uid) && x != id :: x in CollectionOf(r, uid) && CollectionOf(r, uid)[x] == CollectionOf(db, uid)[x]
    ensures forall x | x in CollectionOf(r, uid) :: x in CollectionOf(db, uid)
  {
    if uid in db then db[uid := db[uid] - {id}] else db
  }

  // ---------------------------------------------------------------------------
  // Reads.

  /** `id` holds a newest document of `coll`. */
  predicate IsNewest(coll: map<DocId, Doc>, id: DocId)
  {
    id in coll && forall j | j in coll :: coll[j].createdAt <= coll[id].createdAt
  }

  lemma {:induction false} NewestExists(coll: map<DocId, Doc>)
    requires coll != map[]
    ensures exists id :: IsNewest(coll, id)
    decreases |coll|
  {
    var a :| a in coll;
    var rest := coll - {a};
    assert rest.Keys == coll.Keys - {a};
    assert forall j | j in coll :: j == a || j in rest;
    if rest == map[] {
      assert IsNewest(coll, a);
    } else {
      NewestExists(rest);
      var b :| IsNewest(rest, b);
      assert forall j | j in rest :: rest[j] == coll[j];
      if coll[a].createdAt <= coll[b].createdAt {
        assert IsNewest(coll, b);
      } else {
        assert IsNewest(coll, a);
      }
    }
  }

  /** The document ids of `coll` in the order of `orderBy('createdAt', 'desc')`. */
  ghost function Listing(coll: map<DocId, Doc>): (ids: seq<DocId>)
    ensures |ids| == |coll|
    ensures forall i | 0 <= i < |ids| :: ids[i] in coll
    ensures forall i, j | 0 <= i < j < |ids| :: coll[ids[i]].createdAt >= coll[ids[j]].createdAt
    decreases |coll|
  {
    if coll == map[] then []
    else
      NewestExists(coll);
      var k :| IsNewest(coll, k);
      var rest := coll - {k};
      assert rest.Keys == coll.Keys - {k};
      var tail := Listing(rest);
      assert forall i | 0 <= i < |tail| :: tail[i] in coll && rest[tail[i]] == coll[tail[i]];
      assert forall i | 0 <= i < |tail| :: coll[k].createdAt >= coll[tail[i]].createdAt;
      [k] + tail
  }

  /** The listing holds every document id exactly once. */
  lemma {:induction false} ListingCovers(coll: map<DocId, Doc>)
    ensures forall x | x in coll :: x in Listing(coll)
    ensures forall i, j | 0 <= i < j < |Listing(coll)| :: Listing(coll)[i] != Listing(coll)[j]
    decreases |coll|
  {
    if coll != map[] {
      var ids := Listing(coll);
      var k := ids[0];
      var rest := coll - {k};
      assert rest.Keys == coll.Keys - {k};
      assert ids[1..] == Listing(rest);
      ListingCovers(rest);
      forall x | x in coll ensures x in ids {
        if x != k { assert x in rest; }
      }
      forall i, j | 0 <= i < j < |ids| ensures ids[i] != ids[j] {
        assert ids[j] == Listing(rest)[j - 1];
        if i > 0 { assert ids[i] == Listing(rest)[i - 1]; }
      }
    }
  }

  /** The entry a read maps a document to: `createdAt` in milliseconds, or `now` when falsy. */
  function ReadItem(id: DocId, d: Doc, now: int): (item: Item)
    ensures item.id == id && item.content == d.content && item.timestamp == d.timestamp && item.kind == d.kind
    ensures item.createdAt == Some(if d.createdAt != 0 then d.createdAt else now)
    ensures item.isFavorite == d.isFavorite
  {
    Item(id, d.content, d.timestamp, d.kind, Some(if d.createdAt != 0 then d.createdAt else now), d.isFavorite)
  }

  /** What `getClipboardItems` returns and what a snapshot of the subscription delivers. */
  ghost function ReadItems(coll: map<DocId, Doc>, now: int): (items: seq<Item>)
    ensures |items| == |coll|
  {
    var ids := Listing(coll);
    seq(|ids|, i requires 0 <= i < |ids| => ReadItem(ids[i], coll[ids[i]], now))
  }

  /** The read's `i`-th entry is the listing's `i`-th document. */
  lemma ReadItemIds(coll: map<DocId, Doc>, now: int)
    ensures forall i | 0 <= i < |ReadItems(coll, now)| ::
      Listing(coll)[i] in coll && ReadItems(coll, now)[i] == ReadItem(Listing(coll)[i], coll[Listing(coll)[i]], now)
  {
  }

  /** A read returns every document of the collection, each under its own id. */
  lemma ReadItemsAreDocs(coll: map<DocId, Doc>, now: int)
    ensures var items := ReadItems(coll, now);
      && (forall i | 0 <= i < |items| :: items[i].id in coll && items[i] == ReadItem(items[i].id, coll[items[i].id], now))
      && (forall id | id in coll :: exists i :: 0 <= i < |items| && items[i].id == id)
  {
    var ids := Listing(coll);
    var items := ReadItems(coll, now);
    ListingCovers(coll);
    ReadItemIds(coll, now);
    forall id | id in coll ensures exists i :: 0 <= i < |items| && items[i].id == id {
      var i :| 0 <= i < |ids| && ids[i] == id;
      assert items[i].id == id;
    }
  }

  /** A read lists each document once, newest first by stored `createdAt`. */
  lemma ReadItemsOrdered(coll: map<DocId, Doc>, now: int)
    ensures var items := ReadItems(coll, now);
      && (forall i | 0 <= i < |items| :: items[i].id in coll)
      && (forall i, j | 0 <= i < j < |items| :: items[i].id != items[j].id)
      && (forall i, j | 0 <= i < j < |items| :: coll[items[i].id].createdAt >= coll[items[j].id].createdAt)
  {
    var ids := Listing(coll);
    var items := ReadItems(coll, now);
    ListingCovers(coll);
    ReadItemIds(coll, now);
    forall i, j | 0 <= i < j < |items| ensures coll[items[i].id].createdAt >= coll[items[j].id].createdAt {
      assert items[i].id == ids[i] && items[j].id == ids[j];
    }
  }

  // ---------------------------------------------------------------------------
  // Migration.

  /** The document `migrateClipboardItems` writes for a copied one. */
  function MigratedDoc(d: Doc, source: Uid, target: Uid, serverNow: int): (m: Doc)
    ensures m.userId == target && m.migratedFrom == Some(source) && m.migratedAt == Some(serverNow)
    ensures m.content == d.content && m.timestamp == d.timestamp && m.kind == d.kind
    ensures m.createdAt == d.createdAt && m.isFavorite == d.isFavorite && m.updatedAt == d.updatedAt
  {
    d.(userId := target, migratedFrom := Some(source), migratedAt := Some(serverNow))
  }

  /** The target collection once the copy batch has committed. */
  function CopiedInto(dest: map<DocId, Doc>, snapshot: map<DocId, Doc>, source: Uid, target: Uid, serverNow: int)
    : (r: map<DocId, Doc>)
    ensures r.Keys == dest.Keys + snapshot.Keys
  {
    map id | id in dest.Keys + snapshot.Keys ::
      if id in snapshot then MigratedDoc(snapshot[id], source, target, serverNow) else dest[id]
  }

  /** The whole store once the copy batch has committed. */
  function AfterCopy(db: Db, source: Uid, target: Uid, serverNow: int): Db
  {
    db[target := CopiedInto(CollectionOf(db, target), CollectionOf(db, source), source, target, serverNow)]
  }

  /** `db` with the documents `ids` gone from `uid`'s collection. */
  function WithoutDocs(db: Db, uid: Uid, ids: set<DocId>): (r: Db)
    ensures r.Keys == db.Keys
    ensures forall u | u in db && u != uid :: r[u] == db[u]
  {
    if uid in db then db[uid := db[uid] - ids] else db
  }

  /** The whole store after a migration whose two batches both committed. */
  function AfterMigration(db: Db, source: Uid, target: Uid, serverNow: int): Db
  {
    WithoutDocs(AfterCopy(db, source, target, serverNow), source, CollectionOf(db, source).Keys)
  }

  /**
   * A completed migration between two different users puts every source
   * document into the target under its own id, tagged with the target and the
   * source; target documents with other ids stay as they were; the source
   * documents are gone; and no other user's collection changes.
   */
  lemma MigrationMovesDocs(db: Db, source: Uid, target: Uid, serverNow: int)
    requires source != target
    ensures var after := AfterMigration(db, source, target, serverNow);
      var src := CollectionOf(db, source);
      var dst := CollectionOf(db, target);
      && (forall id | id in src :: id in CollectionOf(after, target)
            && CollectionOf(after, target)[id] == MigratedDoc(src[id], source, target, serverNow))
      && (forall id | id in dst && id !in src :: id in CollectionOf(after, target)
            && CollectionOf(after, target)[id] == dst[id])
      && (forall id | id in CollectionOf(after, target) :: id in src || id in dst)
      && CollectionOf(after, source) == map[]
      && (forall u | u in db && u != source && u != target :: u in after && after[u] == db[u])
  {
    var src := CollectionOf(db, source);
    var copied := AfterCopy(db, source, target, serverNow);
    assert CollectionOf(copied, source) == src;
    var after := AfterMigration(db, source, target, serverNow);
    assert CollectionOf(after, target) == CollectionOf(copied, target);
    if source in db {
      assert after[source] == src - src.Keys;
      assert (src - src.Keys).Keys == {};
    }
  }

  /**
   * Migrating a non-empty collection onto itself leaves it empty: the copy
   * rewrites the documents in place and the delete batch then removes them.
   */
  lemma MigrationOntoItselfErases(db: Db, uid: Uid, serverNow: int)
    requires CollectionOf(db, uid) != map[]
    ensures CollectionOf(AfterMigration(db, uid, uid, serverNow), uid) == map[]
  {
    var src := CollectionOf(db, uid);
    var copied := AfterCopy(db, uid, uid, serverNow);
    assert CollectionOf(copied, uid).Keys == src.Keys;
    var after := AfterMigration(db, uid, uid, serverNow);
    assert after[uid] == CollectionOf(copied, uid) - src.Keys;
    assert after[uid].Keys == {};
  }

  // ---------------------------------------------------------------------------
  // The store.

  class Firestore {
    /** Every user's collection. */
    var db: Db
    /** The uid of the signed-in user (`getCurrentUser()`), if any. */
    var currentUser: Option<Uid>

    constructor(current: Option<Uid>)
      ensures db == map[] && currentUser == current
    {
      db := map[];
      currentUser := current;
    }

    /** The auth layer signs a user in or out. */
    method SetCurrentUser(current: Option<Uid>)
      modifies this
      ensures currentUser == current && db == old(db)
    {
      currentUser := current;
    }

    /**
     * `addClipboardItem`: throws when nobody is signed in; otherwise writes
     * the item under a fresh id in the signed-in user's collection. The write
     * is refused when a field holds `undefined` (the store's default), and
     * `fails` is a failed network write.
     */
    method Add(item: NewItem, newId: DocId, serverNow: int, fails: bool) returns (r: Result<DocId>)
      requires currentUser.Some? ==> newId !in CollectionOf(db, currentUser.value)
      modifies this
      ensures currentUser == old(currentUser)
      ensures currentUser.None? ==> r == Err(NotSignedIn)
      ensures r.Ok? <==> currentUser.Some? && item.isFavorite != Undefined && !fails
      ensures r.Err? ==> db == old(db)
      ensures r.Ok? ==> (r.value == newId
        && db == old(db)[currentUser.value := CollectionOf(old(db), currentUser.value)[newId := AddedDoc(item, currentUser.value, serverNow)]])
    {
      if currentUser.None? {
        return Err(NotSignedIn);
      }
      if item.isFavorite == Undefined {
        return Err("Unsupported field value: undefined");
      }
      if fails {
        return Err("write failed");
      }
      var uid := currentUser.value;
      db := db[uid := CollectionOf(db, uid)[newId := AddedDoc(item, uid, serverNow)]];
      r := Ok(newId);
    }

    /**
     * `updateClipboardItem`: throws when nobody is signed in or the document
     * does not exist; otherwise merges the patch into it and stamps `updatedAt`.
     */
    method Update(itemId: DocId, patch: Patch, serverNow: int, fails: bool) returns (r: Result<()>)
      modifies this
      ensures currentUser == old(currentUser)
      ensures currentUser.None? ==> r == Err(NotSignedIn)
      ensures r.Ok? <==> currentUser.Some? && itemId in CollectionOf(old(db), currentUser.value) && !fails
      ensures r.Err? ==> db == old(db)
      ensures r.Ok? ==> var uid := currentUser.value;
        db == old(db)[uid := old(db)[uid][itemId := Merged(old(db)[uid][itemId], patch, serverNow)]]
    {
      if currentUser.None? {
        return Err(NotSignedIn);
      }
      var uid := currentUser.value;
      if itemId !in CollectionOf(db, uid) {
        return Err("No document to update");
      }
      if fails {
        return Err("write failed");
      }
      db := db[uid := db[uid][itemId := Merged(db[uid][itemId], patch, serverNow)]];
      r := Ok(());
    }

    /**
     * `deleteClipboardItem`: removes the document from the collection of the
     * explicit owner when one is given, else of the signed-in user; throws
     * when there is neither. Deleting a missing document succeeds.
     */
    method Delete(itemId: DocId, userId: Option<Uid>, fails: bool) returns (r: Result<()>)
      modifies this
      ensures currentUser == old(currentUser)
      ensures DeleteOwner(userId, currentUser).None? ==> r == Err(NotSignedIn)
      ensures r.Ok? <==> DeleteOwner(userId, currentUser).Some? && !fails
      ensures r.Err? ==> db == old(db)
      ensures r.Ok? ==> db == WithoutDoc(old(db), DeleteOwner(userId, currentUser).value, itemId)
    {
      var owner := DeleteOwner(userId, currentUser);
      if owner.None? {
        return Err(NotSignedIn);
      }
      if fails {
        return Err("write failed");
      }
      db := WithoutDoc(db, owner.value, itemId);
      r := Ok(());
    }

    /**
     * `migrateClipboardItems`: reads the source collection (`readFails`: the
     * read rejects, and the call throws with nothing written); when it is
     * empty does nothing; otherwise stages a copy of every document into the
     * target and commits it, then stages the deletion of every source
     * document and commits that. A failed batch throws; the deletion is
     * staged only after the copy has committed.
     */
    method Migrate(source: Uid, target: Uid, serverNow: int, readFails: bool, copyFails: bool, deleteFails: bool)
      returns (r: Result<()>)
      modifies this
      ensures currentUser == old(currentUser)
      ensures readFails ==> r.Err? && db == old(db)
      ensures !readFails && CollectionOf(old(db), source) == map[] ==> r.Ok? && db == old(db)
      ensures !readFails && CollectionOf(old(db), source) != map[] && copyFails ==> r.Err? && db == old(db)
      ensures !readFails && CollectionOf(old(db), source) != map[] && !copyFails && deleteFails ==>
        r.Err? && db == AfterCopy(old(db), source, target, serverNow)
      ensures !readFails && CollectionOf(old(db), source) != map[] && !copyFails && !deleteFails ==>
        r.Ok? && db == AfterMigration(old(db), source, target, serverNow)
    {
      if readFails {
        return Err("read failed");
      }
      var snapshot := CollectionOf(db, source);
      if snapshot == map[] {
        return Ok(());
      }
      var staged := StageCopy(CollectionOf(db, target), snapshot, source, target, serverNow);
      if copyFails {
        return Err("copy batch failed");
      }
      db := db[target := staged];
      var doomed := StageDeletes(snapshot);
      if deleteFails {
        return Err("delete batch failed");
      }
      db := WithoutDocs(db, source, doomed);
      r := Ok(());
    }
  }

  /** The documents of `snapshot` whose ids are in `ids`. */
  function Restrict(snapshot: map<DocId, Doc>, ids: set<DocId>): (r: map<DocId, Doc>)
    ensures r.Keys == snapshot.Keys * ids
  {
    map id | id in snapshot.Keys * ids :: snapshot[id]
  }

  /** Staging one more document of the copy batch. */
  lemma CopyStep(dest: map<DocId, Doc>, snapshot: map<DocId, Doc>, done: set<DocId>, id: DocId,
                 source: Uid, target: Uid, serverNow: int)
    requires id in snapshot
    ensures CopiedInto(dest, Restrict(snapshot, done + {id}), source, target, serverNow)
      == CopiedInto(dest, Restrict(snapshot, done), source, target, serverNow)[id := MigratedDoc(snapshot[id], source, target, serverNow)]
  {
  }

  /** The copy batch: one `batch.set` per source document, over the target collection. */
  method StageCopy(dest: map<DocId, Doc>, snapshot: map<DocId, Doc>, source: Uid, target: Uid, serverNow: int)
    returns (staged: map<DocId, Doc>)
    ensures staged == CopiedInto(dest, snapshot, source, target, serverNow)
  {
    staged := dest;
    var done: set<DocId> := {};
    CopyNothing(dest, snapshot, source, target, serverNow);
    var pending := snapshot.Keys;
    while pending != {}
      invariant pending <= snapshot.Keys && done == snapshot.Keys - pending
      invariant staged == CopiedInto(dest, Restrict(snapshot, done), source, target, serverNow)
      decreases |pending|
    {
      var id :| id in pending;
      CopyStep(dest, snapshot, done, id, source, target, serverNow);
      staged := staged[id := MigratedDoc(snapshot[id], source, target, serverNow)];
      done := done + {id};
      pending := pending - {id};
    }
    assert done == snapshot.Keys;
    RestrictAll(snapshot);
  }

  lemma CopyNothing(dest: map<DocId, Doc>, snapshot: map<DocId, Doc>, source: Uid, target: Uid, serverNow: int)
    ensures CopiedInto(dest, Restrict(snapshot, {}), source, target, serverNow) == dest
  {
  }

  lemma RestrictAll(snapshot: map<DocId, Doc>)
    ensures Restrict(snapshot, snapshot.Keys) == snapshot
  {
  }

  /** The delete batch: one `deleteBatch.delete` per document of the snapshot. */
  method StageDeletes(snapshot: map<DocId, Doc>) returns (doomed: set<DocId>)
    ensures doomed == snapshot.Keys
  {
    doomed := {};
    var pending := snapshot.Keys;
    while pending != {}
      invariant pending <= snapshot.Keys
      invariant doomed == snapshot.Keys - pending
      decreases |pending|
    {
      var id :| id in pending;
      doomed := doomed + {id};
      pending := pending - {id};
    }
  }
}
