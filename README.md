# Telegram Cloud: a Dafny model of its folder hierarchy and ingest bot

Telegram Cloud keeps a user's files as messages in a Telegram chat. A Mongo
database indexes them in a folder tree. An Express web app lists, moves and
deletes the indexed files and streams them back. A Telegram bot links website
accounts to Telegram accounts by a one-time code and indexes every photo,
document or video it receives.

This project models the logic of `app.js` and `bot/bot.js` and proves
properties of it. The database is an in-memory store, the `class Store` in
`store.dfy`, with three fields:

- the Folder collection, a map from id to record;
- the File collection, a map from id to record;
- the User collection, a sequence in natural order, because `findOne` returns
  the first match.

Each route handler is one sequential transaction over that store. A `find`,
`updateMany` or `deleteMany` becomes one map operation.

The modules:

- `records.dfy` (`Records`): the record shapes of `models/Folder.js`,
  `models/File.js` and `models/User.js`, and the JavaScript value conventions
  the handlers use: truthiness, `x || fallback`, `x || null`, and
  `Number(null) = 0`.
- `filenames.dfy` (`FileNames`): `sanitizeFileName` and the download
  `Content-Disposition` header. JavaScript strings are sequences of UTF-16
  code units, and the regular expressions have no `u` flag. So a character
  outside the Basic Multilingual Plane is two code units and becomes `__`.
- `preview.dfy` (`Preview`): the status and headers `/preview/:id` sends.
  The headers are a map, because `res.setHeader` replaces an earlier value.
- `hierarchy.dfy` (`Hierarchy`): parent chains, acyclicity, the subtree below
  a folder, and the one-level dashboard queries.
- `store.dfy` (`Storage`): the store and the routes for subtree collection,
  breadcrumb, dashboard, move, bulk move, delete, bulk delete and hard delete.
- `bot.dfy` (`Bot`): the `message` handler (verification, then media
  classification and `File.create`) and the `/start` upsert.

The Telegram `deleteMessage` call is an oracle: a `refused` parameter names
the files whose message Telegram will not delete. The id Mongo gives a new
File record is a parameter, `newId`.

Design decisions:

- **The folder store must be acyclic.** `Store.Valid()` requires every parent
  chain to end. The chains are measured by a walk that carries a visited set,
  so it terminates on any data. No route changes a folder's parent once the
  folder exists. But `/folder/create` (app.js:288-292) stores whatever
  `parentFolderId` the client sends, without checking that such a folder
  exists. A client can predict an ObjectId that Mongo has not yet issued,
  name it as a parent, and so close a cycle. On such a cycle
  `getAllSubfolderIds` and `buildBreadcrumb` never end. So acyclicity holds
  only as long as no client names a folder id before Mongo issues it. The
  model takes it as an invariant. Deleting folders keeps the store acyclic,
  and this is proved (`Hierarchy.AcyclicAfterRemoval`).
- **The recursion follows the code.** `getAllSubfolderIds` is a naive
  recursion, and `Storage.Store.SubfolderIds` recurses the same way, its
  termination measure resting on acyclicity. A hardened worklist walk with a
  visited set is a requirement the code does not meet, so it is not modelled.
- **The subtree has an upward reference definition.**
  `Hierarchy.InSubtree(folders, owner, root, x)` holds when x is `root`, or a
  folder of `owner` whose parent is in the subtree. The enumeration is proved
  to list exactly that set, each element once, with `root` first.

## Model

| member | source | states |
|---|---|---|
| FileNames.StripBreakersFacts | app.js:52 | The first pass leaves no CR, LF or `"`, and removes exactly those characters: its length is the input's minus their number. |
| FileNames.ReplaceUnsafeFacts | app.js:53 | After the second pass every character is in `[A-Za-z0-9._-]`. Its length counts each code unit of the input once, so a supplementary-plane character becomes two underscores. |
| FileNames.StripBreakersAppend | app.js:52 | The first pass works character by character. It distributes over concatenation, deletes a CR, LF or `"`, and keeps any other character. So the other characters survive in order. |
| FileNames.ReplaceUnsafeAppend | app.js:53 | The second pass works character by character. It distributes over concatenation and keeps a character of `[A-Za-z0-9._-]`. Any other character becomes `_`, or `__` when it is a surrogate pair. |
| FileNames.ReplaceUnsafeAt | app.js:53 | On text without surrogate pairs, the second pass keeps the length and maps each position alone: a safe character stays, any other becomes `_`. |
| FileNames.SanitizeAppend | app.js:50-54 | `sanitizeFileName` is determined character by character. A concatenation sanitises to the concatenation of the results. A CR, LF or `"` vanishes, a character of `[A-Za-z0-9._-]` is kept, and any other character becomes one `_` per UTF-16 code unit. |
| FileNames.SanitizeFileName | app.js:50-54 | Every output character is in `[A-Za-z0-9._-]` and none is CR, LF or `"`. The length is the input's UTF-16 length minus the number of CR, LF and `"` characters. |
| FileNames.SanitizeFixedPoint | app.js:50-54 | A name comes through unchanged if and only if every character of it is already in `[A-Za-z0-9._-]`. |
| FileNames.SanitizeIdempotent | app.js:50-54 | Sanitising twice gives the same name as sanitising once. |
| FileNames.DownloadFileName | app.js:138 | A missing or empty stored name gives `file`; otherwise the stored name, sanitised. |
| FileNames.AttachmentDisposition | app.js:138-144 | The header is `attachment; filename="` + name + `"`. It has no CR or LF, and its only `"` characters are the two that open and close the name, so the quoted value cannot end early. |
| Preview.PreviewDecision | app.js:373-400 | A non-empty Range on a video is forwarded and answered 206 with `Accept-Ranges: bytes`. Content-Range and Content-Length are copied from upstream only when it sent a non-empty value. Every other request is a plain 200 with no forwarded range. Content-Type is the MIME type or `video/mp4`, Content-Disposition is `inline`, and no other header is set. |
| Records.AsNumber | app.js:413 | `Number(req.user.telegramId)`: a stored id is itself, 0 included, and a null id is 0. |
| Hierarchy.DepthOfChild | app.js:87-91 | On an acyclic store a folder's parent chain is one longer than its parent's, and never longer than the number of folders. This bounds the breadcrumb walk and the recursion. |
| Hierarchy.TopChildFacts | app.js:59-66 | Every folder of the subtree other than the root is reached through exactly one child that `Folder.find({parentFolderId, telegramId})` returns for the root, and lies in that child's subtree. |
| Hierarchy.SubtreeOfChild | app.js:59-66 | Conversely, the subtree of such a child lies in the root's subtree, never contains the root, and is reached through that child. |
| Hierarchy.ListingInsideSubtree | app.js:252-269 | For any folder of a subtree, the dashboard lists child folders that are in the subtree and one level deeper, and files that the hard delete of that subtree removes. |
| Hierarchy.BreadcrumbUnique | app.js:83-95 | A folder has exactly one breadcrumb, and it is as long as the folder's parent chain. |
| Hierarchy.AcyclicAfterRemoval | app.js:486-489 | Deleting any set of folders leaves the parent chains acyclic. |
| Storage.Store.SubfolderIds | app.js:55-70 | `getAllSubfolderIds(root, owner)` lists `root` first, has no duplicates, and lists exactly the folders of the subtree of `root`. Apart from `root`, every listed id is a stored folder of `owner`. |
| Storage.Store.BuildBreadcrumb | app.js:83-95 | The path is stored folders, each the parent of the next. It ends at the start folder and begins at a folder whose parent is null or not found. |
| Storage.Store.Dashboard | app.js:233-282 | An unverified user goes to `/`. A verified user without a linked Telegram id goes to `/profile`. Otherwise the page lists the caller's folders whose parent is the requested folder (the root when absent) and the caller's files in it, filtered by type when one is given. `currentFolder` is the requested folder only when it is the caller's, and then the breadcrumb is that folder's. |
| Storage.Store.MoveFile | app.js:299-318 | Without a linked id the reply is 401, for a missing file 404, and for someone else's file 403, each with no change. Otherwise only that file's `folderId` changes, to the target (null when the body names none). The target folder is not checked. |
| Storage.Store.BulkMove | app.js:407-419 | The reply is always success. Exactly the listed files whose owner is `Number(req.user.telegramId)` get the target folder, and every other file is unchanged. |
| Storage.Store.DeleteFile | app.js:168-200 | Without a linked id the reply redirects to `/`, for a missing file it is 404, and for someone else's file 403, each with no change. When Telegram refuses the delete, the record stays and the reply is the "Unable to delete" text. Otherwise exactly that record is removed and the reply redirects to `/dashboard`. |
| Storage.Store.BulkDelete | app.js:421-439 | The reply is always success. The records removed are exactly the listed files of the caller whose Telegram delete succeeded; every other record is unchanged. |
| Storage.Store.DeleteFolderHard | app.js:441-492 | Without a linked id the reply redirects to `/`, and for a missing or foreign folder it is 403, each with no change. Otherwise the folders and the caller's files of the subtree are removed, and nothing else. A refused Telegram delete does not stop this; such files are reported in `stillOnTelegram`. Afterwards no folder or file of the caller points into the removed folders. |
| Bot.TrimStart | bot/bot.js:16 | The result is a suffix of the input. Only white space was cut from the front, and the result does not start with white space. |
| Bot.TrimEnd | bot/bot.js:16 | The result is a prefix of the input. Only white space was cut from the end, and the result does not end with white space. |
| Bot.Trim | bot/bot.js:16 | `String.prototype.trim`: a middle slice of the input that neither starts nor ends with white space, with only white space cut away on either side. |
| Bot.TrimIdempotent | bot/bot.js:16 | Trimming twice gives the same text as trimming once. |
| Bot.FindOne | bot/bot.js:18-21 | `findOne` returns the first user matching the filter, or none when no user matches. |
| Bot.FindOneIs | bot/bot.js:18-21 | The first match is the only index that matches with no match before it. |
| Bot.Verify | bot/bot.js:18-27 | The first user still waiting for the code gets the sender's Telegram id, becomes verified and loses the code. No other user changes, and no username changes. Without such a user nothing changes. |
| Bot.VerifyConsumesCode | bot/bot.js:19-26 | Once a user is verified with a code, the same code no longer finds that user. |
| Bot.StartUpsert | bot/bot.js:86-90 | The unique username index refuses the write exactly when another user already has the username, meaning a user other than the first with the Telegram id, or any user when there is none. A refused write changes nothing. Otherwise either the first user with the Telegram id gets that id and the username while every other user stays the same, or, when no user has the id, one user is appended with the schema's insert defaults: not verified and no code. |
| Bot.StartLinksAccount | bot/bot.js:82-90 | A `/start` that is not refused leaves the first user with the sender's Telegram id carrying the given username. It creates a user with that id when none had it, and does not change how many users have it otherwise. |
| Bot.StartIdempotent | bot/bot.js:82-90 | Repeating `/start` leaves the users the same. |
| Bot.StartKeepsUniqueUsernames | models/User.js:4-8 | `/start` keeps usernames unique. |
| Bot.Classify | bot/bot.js:39-64 | No media means no record. An empty photo array makes the handler throw. Otherwise the last branch that ran sets the type, file id, name and MIME type, in the order photo, then document, then video. A photo gives the largest size as the file and the smallest as the thumbnail, `photo.jpg` and `image/jpeg`. A video's name defaults to `video.mp4` and its thumbnail is its own or null. A document keeps the photo's thumbnail. |
| Bot.OnMessage | bot/bot.js:8-78 | A non-empty text equal, after trimming, to a waiting code verifies that user and creates no record. Otherwise the users are unchanged. A message without media, or one that makes the handler throw, creates no record. Every other message creates exactly one File record. It carries the sender's Telegram id, the message id, a null folder and the classified media fields. |
| Bot.OnStart | bot/bot.js:82-90 | Runs for any text containing `/start`, with the sender's username or `no_username`, and does exactly the upsert above. The unique-username invariant holds afterwards. |

## Left out

- Express routing, sessions, Passport and template rendering, and the
  `isLoggedIn` middleware. A request without a session user makes the
  unprotected routes throw on `req.user.telegramId`; the model assumes a
  session user.
- The getFile lookups, the axios streams and piping of download, thumbnail and
  preview. The guards of those routes are not modelled either. Download and
  preview redirect an unlinked caller to `/` and answer 404 and 403 as the
  delete route does. The thumbnail route answers 401 to an unlinked caller and
  404 also when the record has no `thumbFileId` (app.js:203-215).
- Search, which uses Mongo `$regex` with a user-supplied pattern.
- Share links. `models/Share.js` and `models/FolderShare.js` are schemas with
  no operations in the code.
- `/folder/create`, `/profile/telegram` and `/telegram/request`. The last uses
  a random code from `crypto.randomBytes`. The bot side of verification is
  modelled.
- Dates (`createdAt`, `date`), e-mail and password fields, and the
  `sendMessage` replies of the bot.
- Mongo result order. Query results are sets, and the loops take their
  elements in any order. Each handler is one transaction: concurrency between
  requests is not modelled.
- File names holding a lone (unpaired) UTF-16 surrogate. A JavaScript string
  can hold one, and the second sanitiser pass turns it into one `_`, but a
  Dafny `char` cannot hold a surrogate value.
- Malformed request bodies and ObjectId cast errors. A `Number` that gives
  `NaN` is not modelled either: Telegram ids are integers or null.
- Bot.StartLinksAccount: weaker than "exactly one user has that Telegram id
  afterwards". The verification flow can already have given the same Telegram
  id to several users. `/start` updates only the first of them and never merges
  them. So the lemma states that the count becomes 1 when it was 0 and is
  otherwise unchanged.
- Storage.Store.SubfolderIds: needs an acyclic folder store (`Valid()`),
  because the code's recursion has no visited set. A worklist walk with a
  visited set is not modelled, because the code does not have one.
- Storage.Store.MoveFile: the target folder is not checked for existence or
  ownership, as in the code. Moving into another owner's folder is a
  cross-tenant leak, and a move that rejects it is not modelled.
- Ancestors sharing one owner is not an invariant here, because
  `/folder/create` does not enforce it. The subtree therefore takes the root
  whoever owns it, and below it only the caller's folders. A hard delete can
  leave another owner's folders with a parent that no longer exists.
