# Asset manager model

A Dafny model of the asset manager of an e-learning authoring server
(`lib/assetmanager.js`). The asset manager keeps a record per uploaded asset,
stores the file under a content-addressed path, and gates every record
operation on the permission store. The model covers:

- the record operations `createAsset`, `retrieveAsset`, `updateAsset`,
  `destroyAsset` and `hasPermission`;
- the upload handler `postAsset`, with its plain-file branch and its
  animation-package (`.oam`) branch;
- the routes built on those operations: `putAsset`, `queryAssets`,
  `getAsset`, `serveAsset`, `assetThumb`, `serveSharedAsset` and
  `deleteAsset`;
- the two error types the module declares.

The services the module calls are outside the model: the database, the
permission store, file storage, the multipart form parser and the unzip
stream. They appear in two ways:

- as state of the class `Manager.AssetManager`: the records of the current
  tenant and of the master tenant, the stored files, the local temporary
  files, the permission grants, and the list of external calls made so far,
  in order;
- as parameters: what each call reported (the `...Outcomes` datatypes).

Each operation is a method. Its contract ties the new state and the answer to
a function of the old state (`Create`, `Retrieve`, `Destroy`, `Plain`, ...).
Lemmas about those functions state what the source promises. Examples are
which calls happen in which order, what an error path leaves unchanged, which
compensation runs, and which error or id reaches the caller.

Modules:

- `Js` (js.dfy): JavaScript values and plain objects, truthiness, property
  read and write, `_.extend`, `split`, `indexOf`.
- `Paths` (paths.dfy): the content-addressed paths, `path.extname`, and the
  package test.
- `Records` (records.dfy): form fields, tags, the two record literals, and
  the error messages.
- `Queries` (queries.dfy): the query translation of `queryAssets`, and the
  `populate` default.
- `Services` (services.dfy): outcomes, calls, grants, responses, the read
  filter, date stamps, and replies.
- `Manager` (manager.dfy): the class `AssetManager`, with one specification
  function, one method and its lemmas per operation.

Four things the source needs but does not define are abstract:

- The SHA-1 digest of an upload is the function `digestOf`. The only thing
  assumed about it is that it yields a hex string of at least four
  characters.
- The database's query match is the function `selects`.
- Which texts `new RegExp(text, 'i')` accepts as a pattern is the function
  `validPattern`; for any other text it throws a SyntaxError.
- `permissions.buildResourceString` is a resource value made of the tenant
  and the record id.

The query route's 404 branch (`if (!assetRecs)`, lib/assetmanager.js:752)
cannot be taken: `retrieveAsset` always hands back an array. A query that
matches nothing readable therefore answers 200 with `[]`
(`QueryNeverNotFound`).

## Model

| member | source | states |
|---|---|---|
| Js.Assign | lib/assetmanager.js:150-152 | a property write gives the key the new value, and every other key keeps its value. The key set gains the key, and a new key goes last. |
| Js.Extend | lib/assetmanager.js:551-563 | `_.extend` keeps the target's keys first and in place, adds exactly the source's keys, and keeps keys distinct |
| Js.ExtendGet | lib/assetmanager.js:551-563 | after `_.extend`, every key of the source reads the source's value, and every other key reads the target's |
| Js.ExtendFresh | lib/assetmanager.js:253 | extending by keys the target lacks appends the source's entries in order |
| Js.Split | lib/assetmanager.js:451 | `split` always yields at least one piece |
| Js.JoinSplit | lib/assetmanager.js:451 | joining the pieces with the separator gives the string back, and no piece holds the separator |
| Js.LastPiece | lib/assetmanager.js:411 | `split(sep).pop()` is the longest separator-free suffix. It is the whole string exactly when the separator does not occur, and otherwise the separator precedes it. |
| Js.IndexOf | lib/assetmanager.js:392 | `indexOf` is the first position where the text occurs, or -1 when it occurs nowhere |
| Paths.Directory | lib/assetmanager.js:529 | the shard directory is 12 characters long and splits on `/` into exactly `assets`, the digest's first two hex digits and its next two |
| Paths.FilePath | lib/assetmanager.js:529-531 | for a slash-free extension, the stored path reads back as the four components `assets`, the digest's first two characters, its next two, and `digest + ext` |
| Paths.PackageFolder | lib/assetmanager.js:435 | the package folder reads back as the components `assets`, the digest's first two characters, its next two, and the bare digest |
| Paths.Extname | lib/assetmanager.js:530 | `path.extname` yields "" or a dot followed by no further dot and no slash. For a name with no slash it is the text from the last dot on, and "" when there is no dot, when the only dot opens the name, or for `..`. |
| Paths.ExtOfBase | lib/assetmanager.js:530 | the extension of a path component is a proper suffix of it, and it is exactly the text from the component's last dot on, unless there is no dot, the last dot is the first character, or the component is `..` |
| Paths.ExtnameOfReport | lib/assetmanager.js:530 | the extension of `report.pdf` is `.pdf` |
| Paths.PackageIff | lib/assetmanager.js:411 | an upload is a package exactly when its name is `oam` or ends in `.oam` |
| Paths.FilePathInjective | lib/assetmanager.js:528-531 | two plain uploads get the same stored path exactly when their digests and extensions agree |
| Paths.SameStem | lib/assetmanager.js:555 | the stored file name `digest + ext` determines both the digest and the extension |
| Paths.FolderIsExtensionless | lib/assetmanager.js:435 | a package folder is the plain-file path with no extension, and it never equals the path of a plain file that has an extension |
| Records.TagsRoundTrip | lib/assetmanager.js:558 | the tags rejoin with commas into the field and none holds a comma. There are no tags exactly when the field is absent or empty. |
| Records.WithThumbnail | lib/assetmanager.js:550 | a missing or empty thumbnail becomes `none`, a present one is kept, and every other key is untouched |
| Records.FileBase | lib/assetmanager.js:551-561 | the base record of a plain upload has the repository, the content-addressed file name and directory, `isDirectory` false, and the parsed tags |
| Records.FileRecordHolds | lib/assetmanager.js:549-563 | in the plain-file record the backend's keys win, the thumbnail is never missing, and every other key is the base record's |
| Records.FileRecordNamesDigest | lib/assetmanager.js:555-557 | with ordinary backend metadata, the record names the file `digest + ext` in the shard directory and is not a directory |
| Records.PackageRecordIsFolder | lib/assetmanager.js:443-456 | a package record has `directory` and `path` both equal to the extraction folder, and `isDirectory` true |
| Records.PackageRecordKind | lib/assetmanager.js:443-456 | a package record has thumbnail `none` and asset type `edgeAnimation` |
| Records.PermissionMessageAsWritten | lib/assetmanager.js:44-47 | as written, a permission error with no asset id reads "You are not allowed to do that.undefined" |
| Records.ErrorMessage | lib/assetmanager.js:37-40 | the message is the given text (or the default) and, only when there is an asset id, ` assetID: ` and the id |
| Records.MessagesAgreeWithId | lib/assetmanager.js:37-47 | the message as written and the intended message agree exactly when an asset id is given |
| Records.PermissionError | lib/assetmanager.js:44-47 | `new AssetPermissionError()` carries the default permission text |
| Queries.QueryOf | lib/assetmanager.js:737-744 | `$or` is present exactly when there is a pattern clause, and `$and` exactly when there is an equality clause. They hold those lists, and the query has no other key. |
| Queries.TranslateQuery | lib/assetmanager.js:718-744 | the loop over the search keys ends as `Translate` says: at the first string value `new RegExp` rejects, with that value, and otherwise with exactly the query `QueryOf` describes |
| Queries.TranslateFails | lib/assetmanager.js:722-735 | the translation fails exactly when some string value is no valid pattern, and then on the first such value in key order. Otherwise it yields the query the two lists build. |
| Queries.StringSearch | lib/assetmanager.js:716-735 | a search given as a non-empty string yields `$or` alone, with one pattern clause per character, keyed by the character's index, as `Object.keys` lists a string |
| Queries.ListsConcat | lib/assetmanager.js:722-735 | both clause lists keep key order: splitting the search splits each list the same way |
| Queries.Route | lib/assetmanager.js:727-733 | a string value gives one case-insensitive pattern clause and no equality clause, and any other value the reverse |
| Queries.Partition | lib/assetmanager.js:722-735 | the two lists together have exactly one clause per search key |
| Queries.ListMembers | lib/assetmanager.js:722-735 | the pattern clauses are exactly those of the string-valued keys, and the equality clauses exactly those of the others |
| Queries.EmptySearch | lib/assetmanager.js:737-744 | an empty search yields the empty query `{}` |
| Queries.OnlyStrings | lib/assetmanager.js:737-744 | a non-empty search with only string values yields a query with `$or` alone |
| Queries.NoAndClauses | lib/assetmanager.js:730-733 | with only string values there is no equality clause |
| Queries.WithDefaultPopulate | lib/assetmanager.js:249-254 | the options gain `populate` and keep every other key |
| Queries.PopulateMerge | lib/assetmanager.js:249-254 | `populate` is the default `{tags: '_id title'}` when the caller gives none. Otherwise each caller key keeps the caller's value, and `tags` keeps the default only when the caller did not set it. |
| Queries.PrimitivePopulate | lib/assetmanager.js:253 | a caller `populate` that is neither an object nor an array (a string, say) adds no keys, so the default `{tags: '_id title'}` is sent |
| Queries.PopulateIdempotent | lib/assetmanager.js:808-816 | applying the default twice (getAsset, then retrieveAsset) gives the same options as applying it once |
| Services.Filter | lib/assetmanager.js:266-285 | the read filter keeps at most as many records as it is given |
| Services.FilterMembers | lib/assetmanager.js:266-285 | a record is kept exactly when it is among the input and passes the check |
| Services.FilterConcat | lib/assetmanager.js:266-285 | the filter keeps relative order: it distributes over concatenation |
| Services.FilterAll | lib/assetmanager.js:266-285 | the filter drops nothing exactly when every record passes |
| Services.ReadChecks | lib/assetmanager.js:270-281 | there is one permission check per record |
| Services.ReadChecksAt | lib/assetmanager.js:270-281 | the i-th check is the `read` check of the i-th record |
| Services.ReadChecksOnly | lib/assetmanager.js:273 | every check the loop makes is a `read` check |
| Services.Stamp | lib/assetmanager.js:317-319 | a date stamp sets the key to the date only when it is unset. An existing value is kept, and no other key changes. |
| Services.NewRecord | lib/assetmanager.js:150-157 | the created record has the store's id and a `createdAt` (the caller's when given), and otherwise the data |
| Services.CreatorCanRead | lib/assetmanager.js:164-165 | once the grant is in place, the creator passes the `read` check on the new record |
| Services.LimitedIff | lib/assetmanager.js:392 | the client is a limited browser exactly when its Accept header contains `text/html` |
| Services.ReplyCarriesId | lib/assetmanager.js:583-591 | the reply is HTML exactly when the client is limited, and otherwise the JSON object `{_id: id}` with status 200; either reply carries the new id where it can be read back |
| Manager.AssetManager.HasPermission | lib/assetmanager.js:120-123 | the answer is whether the user's grants allow the action on the item's resource, and exactly one check is made |
| Manager.AssetManager.CreateAsset | lib/assetmanager.js:133-175 | the manager's state and answer after createAsset are those `Create` gives |
| Manager.AssetManager.CreateEffect | lib/assetmanager.js:144-172 | there is a new record exactly when the database and the insert succeed. It is the stamped data under the store's id. The grants gain exactly the four editing grants (`create`, `read`, `update`, `delete`) for the creator on that record when the database, the insert, the policy and the statement all succeed, and stay as they were otherwise. A failure leaves records and grants alone, and the files are always untouched. |
| Manager.AssetManager.CreateAppends | lib/assetmanager.js:144-165 | createAsset only appends calls: first the database lookup, then at most three more, none of them a removal or unlink |
| Manager.AssetManager.CreatedIsReadable | lib/assetmanager.js:159-170 | after a fully successful create, the creator can read the record back |
| Manager.AssetManager.RetrieveAsset | lib/assetmanager.js:237-291 | the state and answer are those `Retrieve` gives, and the options sent carry the populate default |
| Manager.AssetManager.ReadFilter | lib/assetmanager.js:266-285 | the loop keeps exactly the records the user may read, in order, and makes one `read` check per record, in order |
| Manager.AssetManager.RetrieveEffect | lib/assetmanager.js:256-289 | retrieval changes nothing but the call list and succeeds exactly when both store calls do. Its records are exactly the stored records the query selects and the user may read. |
| Manager.AssetManager.RetrieveTrace | lib/assetmanager.js:249-281 | the store is asked with the populate default, then each matched record is checked for `read`, one call per record, in order |
| Manager.AssetManager.RetrieveNeverDestroys | lib/assetmanager.js:256-289 | a retrieval only appends calls, and none of them is a destroy |
| Manager.AssetManager.UpdateAsset | lib/assetmanager.js:301-324 | the state and answer after updateAsset are those `Update` gives |
| Manager.AssetManager.UpdateEffect | lib/assetmanager.js:306-321 | the `update` check comes before any store access. A refusal gives the permission error after that one call. Records change only after a successful update, only the selected ones, and each is extended by the stamped delta. |
| Manager.AssetManager.DestroyAsset | lib/assetmanager.js:333-373 | the state and answer after destroyAsset are those `Destroy` gives |
| Manager.AssetManager.DiscardRecord | lib/assetmanager.js:357-368 | the destroy, the storage lookup and the file delete run in that order, as `Discard` gives |
| Manager.AssetManager.DestroyChecksFirst | lib/assetmanager.js:338-341 | the first call is the `delete` check. A refusal gives the permission error after that one call and changes nothing else. |
| Manager.AssetManager.DestroyGuard | lib/assetmanager.js:338-355 | unless the user may delete, the lookups succeed and exactly one readable record has the id, the operation reports an error, changes nothing, and never requests a destroy. When the user may delete and the lookups succeed, a count other than one gives `AssetNotFoundError` for the id. |
| Manager.AssetManager.DestroyEffect | lib/assetmanager.js:357-368 | past the guard, the destroy is requested and the selected records are gone exactly when it succeeded. The record's file is gone exactly when storage and the delete succeeded. A storage error is reported even after the record is gone. |
| Manager.AssetManager.PostPlain | lib/assetmanager.js:517-596 | the state and response of the plain-file branch are those `Plain` gives |
| Manager.AssetManager.PlainStoresFirst | lib/assetmanager.js:527-547 | the first call stores the upload at its content address, and a storage error is reported with nothing else changed |
| Manager.AssetManager.PlainCompensates | lib/assetmanager.js:566-581 | when the record cannot be created, the stored file is deleted as the last call. The create error is reported whether or not that delete succeeded, and no record or grant is left. The master records and temporary files are never touched. |
| Manager.AssetManager.PlainSucceeds | lib/assetmanager.js:583-591 | after a successful create, the file stays stored, the new record is the plain-file record, and the reply carries its id. The master records and temporary files are never touched. |
| Manager.AssetManager.PostPackage | lib/assetmanager.js:411-515 | the state and response of the package branch are those `Package` gives |
| Manager.AssetManager.PackageEffect | lib/assetmanager.js:428-512 | the steps run in series and stop at the first error. A failed create removes the placed folder and reports exactly the create error, with no record kept. Once the record exists, the folder stays, and the response is the unlink error or the reply with the id. |
| Manager.AssetManager.PackageStops | lib/assetmanager.js:424-440 | a failed extraction, directory read or folder placement is reported as that step's error. The calls stop at that step, and neither the staging directory nor the archive is removed. |
| Manager.AssetManager.PackageCompensates | lib/assetmanager.js:459-478 | a failed create reports exactly the create error. The folder removal is the last call, no staging removal or unlink runs, and the staging directory stays. |
| Manager.AssetManager.PackageCleansUp | lib/assetmanager.js:480-496 | once the record exists, the last two calls remove the staging directory and then unlink the archive, after the three series steps |
| Manager.AssetManager.PackageCleansUpLast | lib/assetmanager.js:437-496 | no removal or unlink runs before those last two calls |
| Manager.AssetManager.PackageCleanupResult | lib/assetmanager.js:484-512 | a failed staging removal is ignored and a failed unlink is reported. Each removes its local file only when it succeeded. Otherwise the reply carries the new id. |
| Manager.AssetManager.PostAsset | lib/assetmanager.js:383-599 | the state and response of postAsset are those `Post` gives |
| Manager.AssetManager.PostEffect | lib/assetmanager.js:386-411 | an upload adds at most one record, changes no existing one, and leaves the master records alone. A parse, header, storage or missing-file failure changes nothing but the call list. |
| Manager.AssetManager.PutAsset | lib/assetmanager.js:609-630 | the state and response of putAsset are those `Put` gives |
| Manager.AssetManager.PutEffect | lib/assetmanager.js:615-628 | the delta holds exactly title, description and the tag ids, in that order. The answer is `{success: true}` exactly when the update passed, and the error otherwise. |
| Manager.AssetManager.QueryAssets | lib/assetmanager.js:712-762 | the state and response of queryAssets are those `Query` gives, with the query built by the loop |
| Manager.AssetManager.QueryNeverNotFound | lib/assetmanager.js:722-758 | the query route throws the SyntaxError, before any call, exactly when a string value of the search is no valid pattern. Otherwise it fails exactly when a store call fails, and else answers 200 with an array. It never answers 404. |
| Manager.AssetManager.QueryOptions | lib/assetmanager.js:713-746 | the options are the body when it has a key and the query string otherwise. Their `search` is translated, with none read as `{}`. The store is then asked with that query and the options carrying the populate default. |
| Manager.AssetManager.GetAsset | lib/assetmanager.js:807-830 | the state and response of getAsset are those `GetOne` gives |
| Manager.AssetManager.GetOneEffect | lib/assetmanager.js:816-828 | 404 exactly when no record with the id is readable, 200 with the first readable record otherwise, and the store is sent the populate default once |
| Manager.AssetManager.ServeAsset | lib/assetmanager.js:840-870 | the state and response of serveAsset are those `Serve` gives for the file |
| Manager.AssetManager.AssetThumb | lib/assetmanager.js:880-906 | the state and response of assetThumb are those `Serve` gives for the thumbnail |
| Manager.AssetManager.ServeEffect | lib/assetmanager.js:841-866 | serving changes only the call list. A stream is opened only when exactly one record with the id is readable, and it is that record's file (or thumbnail) in its repository. When the lookups succeed, any other count answers 404. |
| Manager.AssetManager.ServeSharedAsset | lib/assetmanager.js:916-955 | the state and response of serveSharedAsset are those `Shared` gives |
| Manager.AssetManager.SharedIgnoresPermissions | lib/assetmanager.js:917-940 | a shared asset is served from the master records with no permission check: the answer is the same whatever the grants, and it streams from master only when exactly one master record matches. Once both store lookups succeed, any other number of matches answers 404 `asset not found` |
| Manager.AssetManager.DeleteAsset | lib/assetmanager.js:965-974 | the state and response of deleteAsset are those `Delete` gives |
| Manager.AssetManager.DeleteEffect | lib/assetmanager.js:966-972 | the delete route answers `{success: true}` exactly when destroyAsset passed, and passes an error on otherwise, with destroyAsset's effect on the state |

## Left out

- SHA-1 of the uploaded bytes is the class constant `digestOf`. Only its shape (hex, at least four characters) is assumed.
- The database, permission store, file storage, form parser, read streams, `unzip.Extract`, `fs.readdir` and `fs.unlink` are not modelled inside. Each call's outcome is a parameter, and its effect on the state is what a successful call evidently does.
- The store is a sequence of records in store order, not a map from id to record, because retrieveAsset's result order is the store's. The query match is the abstract `selects`. An update extends every selected record by the delta.
- A store that answers a retrieval with no array at all (`!records`) is not modelled. A retrieval that matches nothing yields `[]`, which is what the code hands back in either case.
- Byte streaming in serveAsset, assetThumb and serveSharedAsset is not modelled. A `Stream` response names the location, the headers and whether the master scope is forced.
- Module preload and route registration (lib/assetmanager.js:60-108), logging, and `console.dir` are not modelled.
- createEdgeAsset (lib/assetmanager.js:185-227) is not modelled: nothing in the module calls it. The commented-out getAssets is not modelled either.
- Every `new Date()` of one request is the same opaque time parameter.
- createAsset's `options.user` is not modelled: the user is an argument.
- In-place mutation is not modelled. `data.createdAt`, `delta.updatedAt`, `options.populate` and `storedFile.thumbnailPath` are computed as new values. No later step reads the caller's object, except `RetrieveAsset`, which returns the options it sent.
- Manager.AssetManager.PostPackage: the create-failure callback at lib/assetmanager.js:463-478 calls `nextFunc` twice more after the folder removal. The model keeps the evident intent: the series stops with the create error once the folder is removed.
- Manager.AssetManager.PostPackage: a failed extraction leaves no staging folder in the model. Partial extraction is not modelled.
- Manager.AssetManager.HasPermission: the code ignores the error `permissions.hasPermission` may report (lines 307 and 339) and reads its missing answer as a refusal. The model has no separate outcome for that: a refusal is a grant that is absent.
- Manager.AssetManager.DestroyAsset: the error of `db.destroy` is ignored (line 358). The model proceeds to the storage lookup and file delete either way, and removes the records only when the destroy succeeded.
- Manager.AssetManager.DestroyAsset: the log call at line 363 uses `logger.logger`. The logger module is not part of this model, and the call is taken to return.
- Manager.AssetManager.UpdateAsset: `user.tenant._id` at line 306 throws for a user with no tenant. The model returns that TypeError as the error outcome, and putAsset passes it on. That is where the web framework sends a handler's synchronous throw.
- Manager.AssetManager.PostAsset: the TypeErrors postAsset raises inside callbacks (a missing Accept header, a missing file) are `Thrown` responses. What the server then does with an uncaught exception is not modelled.
- Manager.AssetManager.PostPlain: the upload is assumed to land at the content-addressed target. The compensation deletes the path the backend reported. Read-stream errors in this branch have no handler in the code and are not modelled.
- Records.PermissionError: updateAsset and destroyAsset carry the corrected text "You are not allowed to do that.", not the text "undefined" that line 46 appends (see Findings). The as-written text is `Records.PermissionMessageAsWritten`.
- Manager.AssetManager.RetrieveAsset: the store's answer is taken not to depend on the options it is sent. Sorting, limits and projections in the caller's options are not modelled, and neither is the population that replaces each record's `tags`.
- Manager.AssetManager.QueryAssets: which texts `new RegExp` accepts is the abstract `validPattern`. The SyntaxError it throws is a `Thrown` response. What the server then does with it is not modelled.
- Services.ResourceOf: the resource is the tenant and the `_id` value, not the string `'/api/asset/' + _id`. So `5` and `"5"`, or `undefined` and `"undefined"`, name different resources in the model, although the code builds the same string for each pair.
- Services.PrettyId: JSON escaping of the id is not modelled. Ids are taken to hold no character JSON escapes.
- Numbers are integers. Floating point is not modelled.
- Key order of integer-like keys is not modelled. JavaScript enumerates integer-like keys first, in ascending order, before the other keys in insertion order; the model keeps every key in insertion order, so for a search with integer-like keys the order of the query clauses and which invalid pattern is reported first can differ. No key the asset manager assigns itself is integer-like.
- Which records the empty query `{}` selects is the database's business; `selects` is a parameter, and that `{}` selects every record is not stated.

## Findings

| source | as written | input that shows it | evidently intended | confidence | as-written member | corrected member |
|---|---|---|---|---|---|---|
| lib/assetmanager.js:39 | the message is `(message \|\| default) + (assetID && (' assetID: ' + assetID))`. With no asset id, the second operand is `undefined`, and `+` appends the text "undefined". | `new AssetPermissionError()`, as updateAsset and destroyAsset raise it, gives "You are not allowed to do that.undefined" | the default or given text, followed by ` assetID: <id>` only when an id is given | not executed | Records.PermissionMessageAsWritten | Records.ErrorMessage |
