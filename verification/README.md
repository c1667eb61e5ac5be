# Smart Clipboard — a Dafny model of its history, sync and classification core

Smart Clipboard is an Electron desktop clipboard manager. Its main process
keeps the clipboard history in memory: it captures copied text, answers the
history and deletes or edits entries when the window asks. It also fills in
the page shown after the Google OAuth callback, and picks the `smartclip://`
URL out of a second instance's command line. The React window shows this
history when nobody is signed in. When a user is signed in, it shows a
Firestore collection kept under that user's uid instead. The window's parts
are:

- an optimistic delete with a set of deletions in flight;
- a sync hook that turns the subscription, connectivity events and remote
  actions into a `{items, isLoading, error, syncStatus}` record;
- an auth hook that keeps `{user, isLoading, isAnonymous, error}` up to date
  and moves an anonymous user's entries to the account they sign in with;
- a content classifier;
- a link-preview builder.

This project models each of those parts. State that the source updates in
place is modelled as classes: `HistoryStore`, `Firestore`, `SyncHook`,
`AuthHook`, `AppView` and `LinkPreviewView`. Loops are modelled as methods
with invariants. Everything else is modelled as pure functions. Lemmas state
what the code promises.

Modules, in dependency order:

- `Common`: `Option`, `Result`, and a `Field` type for JavaScript's "absent /
  `undefined` / value". It also holds `||` on optional strings.
- `Strings`: JavaScript string operations the source relies on:
  - `trim`, `startsWith`/`endsWith`, `indexOf`/`includes`;
  - `split`/`join` on one character;
  - `String.prototype.replace` with a string pattern, including its `$`
    replacement patterns.
- `Domain`: the history entry, the object handed to the store, the auth user,
  and subsequence facts.
- `LocalHistory` (`src/main.ts`): the history array and its handlers, the
  protocol URL selection and the callback page fill.
- `ContentUtils` (`src/utils/contentUtils.ts`): `isUrl`, the tab filter and
  the counter loop.
- `SyncManager` (`src/components/ClipboardSyncManager.tsx`): which list the
  window shows, and how a pushed history is routed.
- `RemoteStore` (`src/services/firestore.ts`): a per-user map of documents,
  with add, update, delete, ordered reads and the two-batch migration.
- `ClipboardSync` (`src/hooks/useClipboardSync.ts`): the sync hook.
- `Auth` (`src/hooks/useAuth.ts`): the auth hook and its migration triggers.
- `App` (`src/App.tsx`): the delete and edit handlers and the list effects.
- `ContentDetect` (`src/SmartContentRenderer.tsx`): the classification
  cascade and its labels.
- `LinkPreview` (`src/LinkPreview.tsx`): metadata coalescing and the
  per-domain fallback.

Regular expressions and `JSON.parse` are not modelled as an engine. The
classifier takes an `Oracle`: one test per named pattern, plus whether the
text parses as JSON. The patterns whose meaning the rest of the code depends
on are written out as predicates: the URL pattern, the image extensions, the
image URL, the code characteristics and the JSON delimiters. Clocks, id
generation, server timestamps and failures of external calls are parameters
of the operations; the few failures left out are listed under "Left out".

## Where the code and its documented intent differ

The project's description of its intended behaviour, which does not ship
with this model, differs from its code in the points below. The model
follows the code in each case.

- The documented intent includes merging an anonymous user's local history into
  the remote store, with content-equality deduplication, and a `favorite`
  operation. The code has neither: migration moves remote documents between
  uids, and no favorite toggle is wired.
- By the documented intent, a failed delete batch during migration is only logged. In
  the code it throws. The copied documents stay under both uids and the
  caller records the error (`RemoteStore.Firestore.Migrate`,
  `Auth.AuthHook.CheckRedirectResult`).
- The documented intent makes the `error` sync status terminal until the identity
  changes. In the code an `online` event sets `syncing` from any status
  (`ClipboardSync.SyncHook.OnOnline`).
- By the documented intent, a failed remote delete is logged and not surfaced. The sync
  hook records it in `error` (`ClipboardSync.SyncHook.DeleteItem`). It still
  does not throw.
- `addClipboardItem` spreads the item and then sets `createdAt` to the server
  timestamp. The `createdAt` the window computes is therefore overwritten
  (`RemoteStore.AddedDoc`).

## Model

| member | source | states |
|---|---|---|
| Strings.TrimIsInfix | src/utils/contentUtils.ts:8 | `trim()` yields the infix of its input between a whitespace-only prefix and a whitespace-only suffix, and it neither starts nor ends with whitespace |
| Strings.TrimStartSpec | src/utils/contentUtils.ts:8 | removing leading whitespace leaves a suffix that does not start with whitespace, after a whitespace-only prefix |
| Strings.TrimEndSpec | src/utils/contentUtils.ts:8 | removing trailing whitespace leaves a prefix that does not end with whitespace, before a whitespace-only suffix |
| Strings.TrimEmptyIff | src/main.ts:88 | trimming yields the empty string exactly when every character is whitespace |
| Strings.TrimIdempotent | src/SmartContentRenderer.tsx:19-24 | trimming twice is trimming once |
| Strings.ReplaceFirst | src/main.ts:404-407 | replacing a string pattern changes only its first occurrence, and leaves a string without it unchanged |
| Strings.JsReplaceFirst | src/main.ts:404-407 | a replacement without `$` is inserted literally at the first occurrence |
| Strings.ExpandMatchAfterText | src/main.ts:404-407 | the `$&` pattern in a replacement stands for the matched text |
| Strings.Split | src/SmartContentRenderer.tsx:22 | `split` on one character yields at least one part, none containing the separator |
| Strings.JoinSplit | src/SmartContentRenderer.tsx:22-23 | joining the parts of a split with the same separator restores the string |
| Strings.JoinSplitAt | src/SmartContentRenderer.tsx:23 | a join splits at any part boundary into the join of the two halves |
| Strings.SplitAfterFirstPart | src/LinkPreview.tsx:100 | splitting text whose first separator follows `a` yields `a` and then the parts of the rest |
| Strings.SplitNoSeparator | src/LinkPreview.tsx:100 | text without the separator splits into itself alone |
| Domain.SubsequencePrepend | src/utils/contentUtils.ts:25-28 | an order-preserving selection stays one when an element is put in front of the source list |
| Domain.SubsequenceDropHead | src/utils/contentUtils.ts:25-28 | dropping the first selected element keeps a selection |
| LocalHistory.Captured | src/main.ts:83-104 | a blank capture leaves the history unchanged; a non-blank one puts exactly one `text` entry with the untrimmed content at index 0, followed by the old history in order |
| LocalHistory.Removed | src/main.ts:334-348 | deleting shortens the history by one exactly when the id is present |
| LocalHistory.Updated | src/main.ts:461-476 | updating keeps the length and every entry's id, type, `createdAt` and favorite flag in place, so only contents and timestamps can change |
| LocalHistory.HasIdCons | src/main.ts:335 | an id is present exactly when it is the head's or present in the tail |
| LocalHistory.RemovedAt | src/main.ts:335-337 | deleting a present id removes exactly its first entry and keeps the rest in order |
| LocalHistory.RemovedAbsent | src/main.ts:335-347 | deleting an absent id leaves the history unchanged |
| LocalHistory.UpdatedAt | src/main.ts:462-465 | updating a present id rewrites only its first entry, keeping its id, type and position |
| LocalHistory.UpdatedAbsent | src/main.ts:462-475 | updating an absent id leaves the history unchanged |
| LocalHistory.CaptureKeepsNewestFirst | src/main.ts:96 | a capture stamped no earlier than every entry keeps the history newest-first |
| LocalHistory.SpliceKeepsNewestFirst | src/main.ts:337 | splicing one entry out of a newest-first history keeps it newest-first |
| LocalHistory.RemoveKeepsNewestFirst | src/main.ts:337 | a delete keeps the history newest-first |
| LocalHistory.FirstIndexOf | src/main.ts:335 | the index of a present id is the first index holding it |
| LocalHistory.FindIndex | src/main.ts:335 | `findIndex` answers -1 exactly when the id is absent, and otherwise the first index holding it |
| LocalHistory.HistoryStore.constructor | src/main.ts:57 | the history starts empty |
| LocalHistory.HistoryStore.Capture | src/main.ts:83-104 | stores exactly when the text is not blank, and the array becomes the captured history |
| LocalHistory.HistoryStore.GetHistory | src/main.ts:323-325 | answers the stored array as it is |
| LocalHistory.HistoryStore.Delete | src/main.ts:334-348 | answers whether the id was present, and the array loses exactly its first entry with that id |
| LocalHistory.HistoryStore.Update | src/main.ts:461-476 | answers whether the id was present, and only that entry's content and timestamp change |
| LocalHistory.FindProtocolUrl | src/main.ts:278-284 | picks an argument starting with `smartclip://` exactly when one exists, and it is the first such argument |
| LocalHistory.SecondInstanceHandlesProtocolUrl | src/main.ts:278-283 | the URL handed on starts with `smartclip://` |
| LocalHistory.CallbackTextFor | src/main.ts:400-402 | the page says `error`/`fallida` exactly when an error value is present, with the message `Error: ` followed by it, and otherwise `success`/`exitosa` with "Puedes cerrar esta ventana." |
| LocalHistory.StatusTextsPlain | src/main.ts:400-401 | the status and status text never hold a `$`, so filling them is unaffected by replacement patterns |
| LocalHistory.FillCallbackPage | src/main.ts:404-407 | the corrected fill agrees with the code whenever the message holds no `$` |
| LocalHistory.FillCallbackPageAsWrittenExpands | src/main.ts:404-407 | as written, in any template the first `{{message}}` left after the status fills is replaced by the message with its `$` patterns expanded against that text; with none left the page is the status-filled template |
| LocalHistory.MessagePlaceholderSurvives | src/main.ts:405-406 | filling `{{status}}` or `{{statusText}}` never destroys a `{{message}}`, since the placeholders cannot overlap |
| LocalHistory.MessageSurvivesStatusFill | src/main.ts:404-406 | a template holding `{{message}}` still holds it after both status fills |
| LocalHistory.MessageMatchExpands | src/main.ts:402-407 | as written, a message of `$`-free text followed by `$&` shows that text followed by `{{message}}` itself, in any template holding the placeholder |
| LocalHistory.CallbackPageDollarCounterexample | src/main.ts:402-407 | with error `$&` and any template holding `{{message}}` (the real one included), the page as written shows `Error: {{message}}` where the corrected fill shows `Error: $&`, with the rest of the page the same |
| LocalHistory.FillCallbackPageShowsMessage | src/main.ts:400-407 | in any template, the corrected fill puts the message itself in place of the first `{{message}}` left after the status fills and keeps the text around it |
| ContentUtils.NonSpaceRunIff | src/utils/contentUtils.ts:7 | `[^\s]+` matches a whole string exactly when it is non-empty and has no whitespace |
| ContentUtils.UrlPatternIff | src/utils/contentUtils.ts:7 | `^https?:\/\/[^\s]+$` matches exactly `http://` or `https://` followed by at least one character, with no whitespace anywhere |
| ContentUtils.IsUrlIff | src/utils/contentUtils.ts:6-9 | a text is a URL exactly when its trim is `http://` or `https://` followed by at least one character and contains no whitespace |
| ContentUtils.UrlIsNotBlank | src/utils/contentUtils.ts:6-9 | a URL is never blank |
| ContentUtils.KeepByLink | src/utils/contentUtils.ts:25-28 | the filter keeps only entries whose URL-ness matches the tab |
| ContentUtils.KeepIsSubsequence | src/utils/contentUtils.ts:25-28 | the filter result is an order-preserving subsequence of the input |
| ContentUtils.KeepMembers | src/utils/contentUtils.ts:25-28 | an entry is in the result exactly when it is in the input and matches the tab |
| ContentUtils.FilterItems | src/utils/contentUtils.ts:17-29 | for `links` and `other`, every returned entry belongs to that tab |
| ContentUtils.FilterSelects | src/utils/contentUtils.ts:25-28 | `links` and `other` return exactly the matching entries, in order |
| ContentUtils.FilterAllIsIdentity | src/utils/contentUtils.ts:21-23 | the `all` tab returns the input unchanged |
| ContentUtils.FilterPartition | src/utils/contentUtils.ts:25-28 | the `links` and `other` results together have as many entries as the input |
| ContentUtils.KeepAppend | src/utils/contentUtils.ts:44-50 | filtering a list with one more entry adds that entry exactly when it matches |
| ContentUtils.CountItemsByType | src/utils/contentUtils.ts:36-57 | the counters equal the lengths of the `links` and `other` filter results, and their sum is the length of the input |
| SyncManager.WithoutPending | src/components/ClipboardSyncManager.tsx:34-52 | no pending-delete id appears in the filtered list |
| SyncManager.WithoutPendingSelects | src/components/ClipboardSyncManager.tsx:34-52 | the pending filter keeps exactly the entries whose id is not pending, in order |
| SyncManager.WithoutNothingPending | src/components/ClipboardSyncManager.tsx:34-52 | with nothing pending, the list is unchanged |
| SyncManager.LoadItems | src/components/ClipboardSyncManager.tsx:27-60 | while auth loads the list is untouched, and no list it installs contains a pending id |
| SyncManager.LoadItemsSource | src/components/ClipboardSyncManager.tsx:30-56 | signed in, a non-empty remote list wins, and an empty finished one falls back to the local history; signed out, the local history is shown; a failed local read keeps the list |
| SyncManager.LoadItemsUnchangedIff | src/components/ClipboardSyncManager.tsx:30-56 | lists exactly when the window's list stays: auth loading, remote still loading, or a failed local read |
| SyncManager.CreatedAtOrTimestamp | src/components/ClipboardSyncManager.tsx:72 | `createdAt` falls back to `timestamp` when missing or zero |
| SyncManager.ForwardedItemAsWritten | src/components/ClipboardSyncManager.tsx:67-74 | as written, an entry without `isFavorite` is forwarded with the field explicitly `undefined` |
| SyncManager.ForwardedItem | src/components/ClipboardSyncManager.tsx:67-74 | the corrected object is never `undefined`-valued, keeps content, timestamp and type, and leaves `isFavorite` out exactly when the entry has none |
| SyncManager.ForwardedItemAgrees | src/components/ClipboardSyncManager.tsx:73 | the two objects agree whenever the entry has `isFavorite`, and differ only in absent versus `undefined` |
| SyncManager.RoutePush | src/components/ClipboardSyncManager.tsx:64-79 | signed in, a non-empty pushed history forwards its newest entry (content, timestamp, type, `createdAt || timestamp`, and `isFavorite` undefined exactly when the entry has none) and an empty one does nothing; signed out, the pushed history becomes the list verbatim |
| SyncManager.ForwardedCaptureCreatedAt | src/components/ClipboardSyncManager.tsx:72 | a fresh capture is forwarded with `createdAt` equal to its timestamp |
| RemoteStore.CollectionOf | src/services/firestore.ts:33-41 | a uid without documents has an empty collection |
| RemoteStore.AddedDoc | src/services/firestore.ts:56-63 | the stored document keeps the item's fields and carries the server `createdAt` and the owner's uid |
| RemoteStore.Merged | src/services/firestore.ts:78-82 | an update overwrites exactly the given fields, stamps `updatedAt`, and keeps every other field |
| RemoteStore.MergeEmptyPatch | src/services/firestore.ts:78-82 | an empty patch only stamps `updatedAt` |
| RemoteStore.DeleteOwner | src/services/firestore.ts:91-96 | a delete targets the explicit non-empty uid when given, and otherwise the current user's |
| RemoteStore.WithoutDoc | src/services/firestore.ts:95-96 | deleting removes that one document of that user and nothing else |
| RemoteStore.NewestExists | src/services/firestore.ts:114 | a non-empty collection has a document with the greatest `createdAt` |
| RemoteStore.Listing | src/services/firestore.ts:113-116 | the ordered query lists every document once, by `createdAt` descending |
| RemoteStore.ListingCovers | src/services/firestore.ts:113-116 | the listing holds every document of the collection, without repetition |
| RemoteStore.ReadItem | src/services/firestore.ts:117-121 | a read entry carries the document's id and fields, with the stored `createdAt`, or the current time when it is 0, which stands for a missing or not yet stamped timestamp |
| RemoteStore.ReadItems | src/services/firestore.ts:109-122 | reading yields one entry per document |
| RemoteStore.ReadItemsAreDocs | src/services/firestore.ts:116-121 | each read entry is the mapping of the collection's document under its id, and every document is read |
| RemoteStore.ReadItemsOrdered | src/services/firestore.ts:113-121 | read entries come newest `createdAt` first |
| RemoteStore.MigratedDoc | src/services/firestore.ts:176-183 | a migrated document keeps its fields and records the target uid, its source uid and the migration time |
| RemoteStore.CopiedInto | src/services/firestore.ts:171-186 | after the copy, the target holds its own documents and every source id |
| RemoteStore.WithoutDocs | src/services/firestore.ts:189-195 | the delete batch touches only the source user's collection |
| RemoteStore.MigrationMovesDocs | src/services/firestore.ts:156-196 | after migration, every source document is in the target under the same id, with the migration fields; other target documents are untouched, the source is empty, and other users are unchanged |
| RemoteStore.MigrationOntoItselfErases | src/services/firestore.ts:171-195 | migrating a user onto itself would delete all its documents |
| RemoteStore.Firestore.constructor | src/services/firestore.ts:33-45 | the store starts empty, with the given current user |
| RemoteStore.Firestore.SetCurrentUser | src/services/firestore.ts:53 | changes who is signed in, and no document |
| RemoteStore.Firestore.Add | src/services/firestore.ts:52-64 | refuses without a current user or with an `undefined` field; otherwise stores the added document under the new id and answers it |
| RemoteStore.Firestore.Update | src/services/firestore.ts:71-83 | refuses without a current user or a document; otherwise merges the patch into that document alone |
| RemoteStore.Firestore.Delete | src/services/firestore.ts:90-102 | refuses when no owner can be named; otherwise removes that owner's document |
| RemoteStore.Firestore.Migrate | src/services/firestore.ts:156-196 | a rejected read of the source fails and changes nothing; an empty source changes nothing; a failed copy changes nothing; a failed delete leaves the copy committed; otherwise the documents are moved |
| RemoteStore.Restrict | src/services/firestore.ts:171-186 | the part of the snapshot copied so far |
| RemoteStore.CopyStep | src/services/firestore.ts:174-183 | copying one more document extends the partial copy by that document |
| RemoteStore.StageCopy | src/services/firestore.ts:171-186 | the copy loop stages exactly the full copy of the snapshot into the target |
| RemoteStore.CopyNothing | src/services/firestore.ts:171 | before the loop nothing has been copied |
| RemoteStore.RestrictAll | src/services/firestore.ts:174-186 | after the loop the whole snapshot has been copied |
| RemoteStore.StageDeletes | src/services/firestore.ts:189-193 | the delete loop stages every source document |
| ClipboardSync.InitialConsistent | src/hooks/useClipboardSync.ts:31-36 | the initial state is loading with no items, and satisfies the state invariant |
| ClipboardSync.SyncHook.constructor | src/hooks/useClipboardSync.ts:31-36 | the hook starts loading, `syncing`, with no items or error |
| ClipboardSync.SyncHook.OnUserChanged | src/hooks/useClipboardSync.ts:38-101 | with no user the state becomes `error` with its message; a failed subscription does the same; otherwise it goes back to loading `syncing`; items are kept |
| ClipboardSync.SyncHook.OnSnapshot | src/hooks/useClipboardSync.ts:59-66 | a snapshot replaces items wholesale, ends loading, sets `synced`, and keeps `error` |
| ClipboardSync.SyncHook.OnOnline | src/hooks/useClipboardSync.ts:78-84 | sets `syncing` and nothing else |
| ClipboardSync.SyncHook.OnOffline | src/hooks/useClipboardSync.ts:86-91 | sets `offline` and nothing else |
| ClipboardSync.SyncHook.AddItem | src/hooks/useClipboardSync.ts:105-125 | with no user records the error and writes nothing; otherwise answers the new id exactly when the store accepts the item, and records the add error when it does not |
| ClipboardSync.SyncHook.UpdateItem | src/hooks/useClipboardSync.ts:127-145 | with no user records the error; otherwise the document is merged, or the update error is recorded and nothing is written |
| ClipboardSync.SyncHook.DeleteItem | src/hooks/useClipboardSync.ts:147-167 | with no user records the error; otherwise deletes under the hook's own uid, or records the delete error and writes nothing |
| Auth.ErrorText | src/hooks/useAuth.ts:238 | a thrown message is shown when non-empty, and the fixed text otherwise |
| Auth.TriggersNeverMigrateOntoItself | src/hooks/useAuth.ts:212-220 | a migration onto the same uid would erase the collection, but a migration either trigger starts moves every document of the previous user into the new collection and empties the old one; the sign-in trigger implies the redirect one |
| Auth.AuthHook.constructor | src/hooks/useAuth.ts:35-40 | starts with no user, loading, not anonymous, no error |
| Auth.AuthHook.OnAuthChanged | src/hooks/useAuth.ts:125-160 | records the user and its anonymity and ends loading; an anonymous sign-in starts exactly when no user arrives during the first load |
| Auth.AuthHook.OnAnonymousSignIn | src/hooks/useAuth.ts:138-155 | success records the anonymous user; failure clears the user and records the error |
| Auth.AuthHook.HandleAuthCallback | src/hooks/useAuth.ts:42-67 | a redirect user replaces the user and clears the error; none changes nothing |
| Auth.AuthHook.CheckRedirectResult | src/hooks/useAuth.ts:91-120 | migrates exactly when the current user is anonymous and the uid differs; the migration fails exactly when its read rejects, or the source is non-empty and a batch fails, and then the error is recorded and the user kept |
| Auth.AuthHook.SignInWithGoogle | src/hooks/useAuth.ts:166-242 | a callback with an error or without a code aborts before any sign-in or migration; a migration runs only from an anonymous uid to a different one, and fails exactly when its read rejects or a batch on a non-empty source fails; every failure keeps the user and records the error |
| Auth.AuthHook.Logout | src/hooks/useAuth.ts:244-264 | success replaces the whole state with a fresh anonymous user; failure keeps the user and records the error |
| Auth.AuthHook.LinkAnonymousWithGoogle | src/hooks/useAuth.ts:267-311 | refuses a user that is absent or not anonymous, and changes nothing; otherwise starts the link |
| Auth.AuthHook.ClearError | src/hooks/useAuth.ts:313-315 | clears the error and nothing else |
| App.AppView.constructor | src/App.tsx:23-32 | the window starts with an empty list, nothing pending, and the dialog closed |
| App.AppView.DeleteItem | src/App.tsx:52-103 | a repeated delete is a no-op; otherwise the id is pending and filtered out before the local call; the remote delete runs only when signed in and not offline; the id is never left pending; a failed local call reloads the list only when signed out |
| App.AppView.UpdateItem | src/App.tsx:106-123 | signed in, only the remote document's content changes, or, when there is no such document or the write fails, nothing is written and the update error is recorded; signed out, the local entry changes and the list is reloaded; the dialog closes unless the local call throws |
| App.AppView.OnClipboardPushed | src/components/ClipboardSyncManager.tsx:64-79 | signed in, the newest pushed entry is added remotely exactly when the store has a signed-in user, the entry has `isFavorite` and the write succeeds, otherwise the add error is recorded and nothing is written; the list is kept; signed out, the pushed history becomes the list |
| App.AppView.RefreshView | src/components/ClipboardSyncManager.tsx:27-60 | signed in, the list becomes the non-pending remote entries when there are any, and the non-pending local history when the remote list is empty and loaded; signed out with auth loaded, it becomes the non-pending local history; while auth or an empty remote list loads, or when the history read fails, it stays; a list it installs never shows a pending id |
| App.WithoutPendingNewestFirst | src/components/ClipboardSyncManager.tsx:34-36 | dropping the entries pending deletion from a list of distinct documents ordered newest first keeps it so |
| App.RemoteViewNewestFirst | src/components/ClipboardSyncManager.tsx:32-37 | when the hook holds a read of the collection, the signed-in list shows every document not pending deletion exactly once, as the read maps it, newest first by stored `createdAt` |
| App.ForwardedCaptureRejected | src/components/ClipboardSyncManager.tsx:73 | as written, a signed-in user's fresh capture is refused by the store, and the add error is recorded |
| App.ForwardedCaptureStored | src/components/ClipboardSyncManager.tsx:65-75 | with the corrected object the same capture is stored under the new id with its content, and no error |
| ContentDetect.CodeLanguagesKnown | src/SmartContentRenderer.tsx:84-110 | every row of the language table names TypeScript, HTML, CSS or JavaScript |
| ContentDetect.SomeMatchIff | src/SmartContentRenderer.tsx:79 | `some` holds exactly when one of the patterns matches |
| ContentDetect.FirstMatch | src/SmartContentRenderer.tsx:112-116 | answers nothing exactly when no pattern matches, and otherwise the language of the first one that does |
| ContentDetect.CodeScore | src/SmartContentRenderer.tsx:130-132 | the score is at most the number of patterns |
| ContentDetect.CodeScoreCounts | src/SmartContentRenderer.tsx:130-132 | the score is the number of patterns that match |
| ContentDetect.Lower | src/SmartContentRenderer.tsx:27-28 | case folding keeps the length and folds each character |
| ContentDetect.SchemeLength | src/SmartContentRenderer.tsx:28 | the optional scheme is absent, `http://` or `https://` |
| ContentDetect.ImageUrlEndCases | src/SmartContentRenderer.tsx:28 | an image URL either ends in the extension or has a query after it |
| ContentDetect.ImageUrlBeyondExtension | src/SmartContentRenderer.tsx:27-30 | the image URL test adds to the extension test only for URLs with a `?` query |
| ContentDetect.SampleIsPrefix | src/SmartContentRenderer.tsx:21-23 | the sample is the first 50 lines, or the whole text when it has no more |
| ContentDetect.ClassifySample | src/SmartContentRenderer.tsx:50-138 | the sample tests answer code, markdown or text, and code always carries one of the four languages |
| ContentDetect.DetectContentType | src/SmartContentRenderer.tsx:15-139 | code and JSON results, and only they, carry a language, and JSON's is `json` |
| ContentDetect.DetectWholeContent | src/SmartContentRenderer.tsx:26-47 | the cascade's order: image, then URL, then delimited JSON, then the sample tests |
| ContentDetect.ImageExtensionWins | src/SmartContentRenderer.tsx:27-31 | trimmed text ending in an image extension is an image, URL or not |
| ContentDetect.UndelimitedJsonFallsThrough | src/SmartContentRenderer.tsx:41-47 | parseable text not delimited by `{}` or `[]` is never JSON and goes on to the sample tests |
| ContentDetect.LaterTestsSeeOnlySample | src/SmartContentRenderer.tsx:19-24 | beyond image, URL and JSON, two texts with the same sample are classified alike |
| ContentDetect.TypeScriptBeforeMarkdown | src/SmartContentRenderer.tsx:50-61 | a TSX pattern match is TypeScript, before markdown is considered |
| ContentDetect.NoMarkdownWithCodeCharacteristics | src/SmartContentRenderer.tsx:77-81 | text with code characteristics is never markdown |
| ContentDetect.MarkdownIff | src/SmartContentRenderer.tsx:64-81 | markdown exactly when no TSX pattern matches, there are no code characteristics, and a markdown pattern matches |
| ContentDetect.LanguageTableThenScore | src/SmartContentRenderer.tsx:84-136 | past markdown, the first matching language pattern decides; failing that, at least 3 of the 8 generic patterns give JavaScript, and fewer give text |
| ContentDetect.TypeLabel | src/SmartContentRenderer.tsx:163-178 | every label is non-empty |
| ContentDetect.TypeLabelsDistinct | src/SmartContentRenderer.tsx:163-178 | different types get different labels, and a code label names its language |
| LinkPreview.FirstTruthy | src/LinkPreview.tsx:56-65 | answers the first non-empty candidate, or the fallback when there is none |
| LinkPreview.ExtractMetadata | src/LinkPreview.tsx:50-83 | the successive assignments build the coalesced metadata |
| LinkPreview.ExtractedTitleAndDescription | src/LinkPreview.tsx:56-65 | the title is the first non-empty of og, twitter and page title, else "Contenido de" the domain; the description follows the same chain |
| LinkPreview.ExtractedImageSiteAndFavicon | src/LinkPreview.tsx:50-83 | an image is set only from og or twitter, og first, with a leading `/` resolved against the page; the site name falls back to the host; the favicon is always the host's |
| LinkPreview.SiteOf | src/LinkPreview.tsx:123 | the corrected dispatch labels a host X only when it contains `twitter.com` or is `x.com` or one of its subdomains |
| LinkPreview.NotContainedWithoutChar | src/LinkPreview.tsx:99-134 | a host lacking any one character of a pattern does not contain it |
| LinkPreview.DotlessHostIsOther | src/LinkPreview.tsx:99-138 | a host name without a dot matches none of the named sites, under the code's test and the corrected one |
| LinkPreview.XHostNarrowsAsWritten | src/LinkPreview.tsx:123 | the corrected X test implies the code's, so the two dispatches differ only on hosts the code wrongly calls X |
| LinkPreview.DropboxCounterexample | src/LinkPreview.tsx:123 | as written `dropbox.com` is labelled an X post; corrected it is an ordinary site |
| LinkPreview.DropboxCards | src/LinkPreview.tsx:123-138 | as written, an unfetchable Dropbox link gets the X title and site name; corrected, the generic title and its own host |
| LinkPreview.NonEmptyParts | src/LinkPreview.tsx:100 | `filter(Boolean)` keeps only non-empty parts of the input |
| LinkPreview.NonEmptyPartsSelects | src/LinkPreview.tsx:100 | the filter's result is a subsequence of the parts and holds a value exactly when it is a non-empty part |
| LinkPreview.NonEmptyPartsAppend | src/LinkPreview.tsx:100 | filtering a concatenation filters each half, so every non-empty part is kept as often as it occurs, in order |
| LinkPreview.PathSegments | src/LinkPreview.tsx:100 | the segments are exactly the non-empty `/`-separated parts of the path, in order, and contain no `/` |
| LinkPreview.FallbackMetadata | src/LinkPreview.tsx:93-138 | the successive assignments build the fallback for the site the code's own tests pick, `includes('x.com')` included |
| LinkPreview.FallbackDiffersOnlyOnX | src/LinkPreview.tsx:123 | the code's fallback and the corrected one differ only for a host the code wrongly takes for X, which gets the X card |
| LinkPreview.FallbackShape | src/LinkPreview.tsx:93-138 | for every site every fallback carries the host's favicon; only GitHub and YouTube fallbacks have an image; the title is missing exactly for a YouTube address without a video id, and then so is the description |
| LinkPreview.FallbackSiteName | src/LinkPreview.tsx:93-134 | the site name is the host except for X, LinkedIn and Instagram, which get their own names, none with a dot |
| LinkPreview.NamedSiteHostDotted | src/LinkPreview.tsx:99-134 | under the code's dispatch and the corrected one, only a dotted host is sent to X, LinkedIn or Instagram, so the site name is the host exactly for the other sites |
| LinkPreview.GitHubFallback | src/LinkPreview.tsx:99-108 | two or more path segments give the title "owner/repo" and the opengraph image; fewer give the plain GitHub title |
| LinkPreview.UnmatchedFallback | src/LinkPreview.tsx:135-138 | other hosts get "Contenido de" and "Enlace a" the host, without image |
| LinkPreview.LinkPreviewView.constructor | src/LinkPreview.tsx:19-21 | starts loading, with no metadata and no error |
| LinkPreview.LinkPreviewView.FetchMetadata | src/LinkPreview.tsx:24-147 | always ends loading; an unparseable URL sets the error and keeps the metadata; a fetched page gives the extracted metadata, and otherwise the fallback the code builds |

## Left out

- The Electron shell is not modelled: windows, tray, icons, GPU switches,
  the global shortcut, the single-instance lock and the IPC wiring. Each
  handler is modelled as an operation on the history.
- The localhost OAuth server, the OAuth URL building, the token exchange and
  the Firebase SDK are not modelled. Their outcomes are parameters: a
  `Result` for each call that can throw, and the user it yields.
- `generateId`, `Date.now()` and `serverTimestamp()` are parameters.
- The proxy fetch, `DOMParser` and `new URL` are not modelled. The meta-tag
  values, the parsed address and URL resolution are inputs.
- Regular expressions and `JSON.parse` are not an engine here. Each pattern
  test is an oracle, except for the patterns written out above.
- Concurrency is not modelled: async interleaving, listener registration and
  teardown, stale closures, and the subscription's own timing. Each handler
  is one atomic step, and a snapshot is an explicit event.
- The push that follows a local delete or edit is not chained into
  `App.AppView.DeleteItem` or `App.AppView.UpdateItem`. It is the separate
  operation `App.AppView.OnClipboardPushed`.
- A failure of a `getClipboardHistory()` reload is not modelled, in either
  handler. In `handleDeleteItem` it is the reload in the error path. In
  `handleUpdateItem` it is the reload after a successful local update
  (src/App.tsx:113). If that reload throws, the source leaves the entry
  updated, the list stale and the dialog open. `App.AppView.UpdateItem`
  always reloads after a successful local update.
- Listing order among documents with equal `createdAt` is not fixed by the
  model, since Firestore's tie order is not part of the code.
- Firestore security rules and the `migratedFrom`/`migratedAt` timestamps'
  server semantics are not modelled.
- `handleAuthCallback`'s `catch` is not modelled. `getGoogleRedirectResult`
  swallows its errors (src/services/auth.ts:102-113), so that branch cannot
  run.
- Presentational components, favorites, and merging by content are not
  modelled. The code has neither of the last two.
- ClipboardSync.SyncHook.OnSnapshot: takes the delivered items as a
  parameter. That they are a read of the user's collection is the hypothesis
  of `App.RemoteViewNewestFirst`; the hook's state does not carry it.
- RemoteStore.ReadItems: a ghost function, because a map's iteration order
  is not observable. Its order is stated through `Listing`.

## Findings

| source | as written | input that shows it | evidently intended | confidence | as-written member | corrected member |
|---|---|---|---|---|---|---|
| src/main.ts:402-407 | the error message is the replacement string of `String.prototype.replace`, so `$` patterns in it are expanded | any template holding `{{message}}` (the callback page's own included), error query value `$&`: the page shows `Error: {{message}}` | the page shows `Error: $&` | not executed; follows from the ECMAScript replacement rules | LocalHistory.CallbackPageDollarCounterexample | LocalHistory.FillCallbackPageShowsMessage |
| src/components/ClipboardSyncManager.tsx:73 | the forwarded object sets `isFavorite: newItem.isFavorite`, which is `undefined` for every capture of the main process, and `addDoc` refuses `undefined` fields | a signed-in user copies any non-blank text | the capture is stored remotely | not executed; depends on Firestore's default of refusing `undefined` | App.ForwardedCaptureRejected | App.ForwardedCaptureStored |
| src/LinkPreview.tsx:123 | `domain.includes('x.com')` matches any host containing that text | host `dropbox.com` is labelled "Post en X (Twitter)" | only `x.com` and its subdomains are X | not executed | LinkPreview.DropboxCounterexample | LinkPreview.XHostNarrowsAsWritten |
