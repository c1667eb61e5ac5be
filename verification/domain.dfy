/** The records the application passes between its parts. */
module Domain {
  import opened Common

  /** An identity's stable id (Firebase `uid`). */
  type Uid = string

  /** `ClipboardItem.type`; only `Text` is produced by the capture. */
  datatype ItemType = Text | Image | File

  /**
   * A clipboard entry (`ClipboardItem`). Local entries have no `createdAt`
   * and no `isFavorite`; entries read from the remote store carry `createdAt`
   * in milliseconds.
   */
  datatype Item = Item(
    id: string,
    content: string,
    timestamp: int,
    kind: ItemType,
    createdAt: Option<int>,
    isFavorite: Option<bool>)

  /** An entry without its id (`Omit<ClipboardItem, 'id'>`), as forwarded to the remote add. */
  datatype NewItem = NewItem(
    content: string,
    timestamp: int,
    kind: ItemType,
    createdAt: int,
    isFavorite: Field<bool>)

  /** The signed-in identity (`AuthUser`); `email` stands for the display fields. */
  datatype AuthUser = AuthUser(uid: Uid, isAnonymous: bool, email: Option<string>)

  /** Some entry of `items` has id `id`. */
  predicate HasId(items: seq<Item>, id: string)
  {
    exists k | 0 <= k < |items| :: items[k].id == id
  }

  /** `i` is the index `Array.prototype.findIndex` returns for `id`: the first entry with that id. */
  predicate IsFirstIndex(items: seq<Item>, id: string, i: int)
  {
    0 <= i < |items| && items[i].id == id && forall k | 0 <= k < i :: items[k].id != id
  }

  /** `a` is `b` with some entries dropped and the rest in their original order. */
  predicate IsSubsequence<T(==)>(a: seq<T>, b: seq<T>)
    decreases |b|
  {
    if a == [] then true
    else if b == [] then false
    else if a[0] == b[0] then IsSubsequence(a[1..], b[1..])
    else IsSubsequence(a, b[1..])
  }

  /** Putting one more entry in front of `b` keeps `a` a subsequence of it. */
  lemma {:induction false} SubsequencePrepend<T>(a: seq<T>, b: seq<T>, x: T)
    requires IsSubsequence(a, b)
    ensures IsSubsequence(a, [x] + b)
    decreases |b|, 1
  {
    var xb := [x] + b;
    assert xb[1..] == b;
    if a != [] && a[0] == x {
      SubsequenceDropHead(a, b);
    }
  }

  /** Dropping the first entry of `a` keeps it a subsequence of `b`. */
  lemma {:induction false} SubsequenceDropHead<T>(a: seq<T>, b: seq<T>)
    requires a != [] && IsSubsequence(a, b)
    ensures IsSubsequence(a[1..], b)
    decreases |b|, 0
  {
    assert b != [];
    if a[0] == b[0] {
      SubsequencePrepend(a[1..], b[1..], b[0]);
    } else {
      SubsequenceDropHead(a, b[1..]);
      SubsequencePrepend(a[1..], b[1..], b[0]);
    }
    assert [b[0]] + b[1..] == b;
  }
}
