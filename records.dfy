/**
 * The values postAsset assembles before it calls into the store
 * (lib/assetmanager.js:396, 443-456, 549-563), and the two error types the
 * module declares (lib/assetmanager.js:37-49).
 */
module Records {
  import opened Js
  import opened Paths

  /** The multipart text fields of an upload; None where the form omits one. */
  datatype Fields = Fields(title: Option<string>, description: Option<string>,
                           repository: Option<string>, tags: Option<string>)

  datatype Option<T> = None | Some(value: T)

  /** The acting user: its id and, when it belongs to one, its tenant's id. */
  datatype User = User(id: string, tenant: Option<string>)

  /** A form field as a property value: absent fields read as undefined. */
  function FieldValue(f: Option<string>): Value {
    match f
    case None => Undefined
    case Some(s) => Str(s)
  }

  /** `fields.repository || 'localfs'`. */
  function RepositoryOf(fields: Fields): string {
    if fields.repository.Some? && fields.repository.value != "" then fields.repository.value else "localfs"
  }

  /** `(fields.tags && fields.tags.length) ? fields.tags.split(',') : []`. */
  function TagNames(tags: Option<string>): seq<string> {
    if tags.Some? && |tags.value| > 0 then Split(tags.value, ',') else []
  }

  function TagValues(names: seq<string>): seq<Value> {
    seq(|names|, i requires 0 <= i < |names| => Str(names[i]))
  }

  /** The tag list keeps all of the field: its names rejoin into the field, none
      holds a comma, and an absent or empty field gives no tags. */
  lemma TagsRoundTrip(tags: Option<string>)
    ensures tags.Some? && tags.value != "" ==> |TagNames(tags)| >= 1 && Join(TagNames(tags), ',') == tags.value
    ensures forall i | 0 <= i < |TagNames(tags)| :: ',' !in TagNames(tags)[i]
    ensures TagNames(tags) == [] <==> tags.None? || tags.value == ""
  {
    if tags.Some? && tags.value != "" {
      JoinSplit(tags.value, ',');
    }
  }

  const DefaultThumbnail: string := "none"

  /** `storedFile.thumbnailPath = storedFile.thumbnailPath || DEFAULT_THUMBNAIL_IMAGE`. */
  function WithThumbnail(stored: Object): (r: Object)
    ensures Truthy(Get(r, "thumbnailPath"))
    ensures Truthy(Get(stored, "thumbnailPath")) ==> r == stored
    ensures !Truthy(Get(stored, "thumbnailPath")) ==> Get(r, "thumbnailPath") == Str(DefaultThumbnail)
    ensures forall k {:trigger Get(r, k)} :: k != "thumbnailPath" ==> Get(r, k) == Get(stored, k)
    ensures Keys(r) == Keys(stored) + {"thumbnailPath"}
    ensures Distinct(stored) ==> Distinct(r)
  {
    var t := Get(stored, "thumbnailPath");
    AssignPlaces(stored, "thumbnailPath", if Truthy(t) then t else Str(DefaultThumbnail));
    if Truthy(t) then
      AssignSame(stored, "thumbnailPath");
      stored
    else
      Assign(stored, "thumbnailPath", Str(DefaultThumbnail))
  }

  /** The record literal of the plain-file branch, before the backend's keys. */
  function FileBase(fields: Fields, repository: string, digest: string, ext: string,
                    user: User, date: int): (r: Object)
    requires IsHexDigest(digest)
    ensures Get(r, "repository") == Str(repository)
    ensures Get(r, "filename") == Str(Filename(digest, ext))
    ensures Get(r, "directory") == Str(Directory(digest))
    ensures Get(r, "isDirectory") == Bool(false)
    ensures Get(r, "tags") == List(TagValues(TagNames(fields.tags)))
  {
    var r := [ ("title", FieldValue(fields.title)),
      ("description", FieldValue(fields.description)),
      ("repository", Str(repository)),
      ("filename", Str(Filename(digest, ext))),
      ("directory", Str(Directory(digest))),
      ("isDirectory", Bool(false)),
      ("tags", List(TagValues(TagNames(fields.tags)))),
      ("createdBy", Str(user.id)),
      ("dateCreated", Date(date)) ];
    assert Names(r) == ["title", "description", "repository", "filename", "directory",
                        "isDirectory", "tags", "createdBy", "dateCreated"];
    GetFirst(r, 2, "repository");
    GetFirst(r, 3, "filename");
    GetFirst(r, 4, "directory");
    GetFirst(r, 5, "isDirectory");
    GetFirst(r, 6, "tags");
    r
  }

  /** `_.extend({title, ..., dateCreated}, storedFile)` after the thumbnail default. */
  function FileRecord(fields: Fields, repository: string, digest: string, ext: string,
                      user: User, date: int, stored: Object): Object
    requires IsHexDigest(digest)
  {
    Extend(FileBase(fields, repository, digest, ext, user, date), WithThumbnail(stored))
  }

  /** What the plain-file record holds: every key the storage backend returned
      wins over the base record's, the thumbnail is never missing, and each
      other key is the base record's. */
  lemma FileRecordHolds(fields: Fields, repository: string, digest: string, ext: string,
                        user: User, date: int, stored: Object, k: string)
    requires IsHexDigest(digest)
    requires Distinct(stored)
    ensures var r := FileRecord(fields, repository, digest, ext, user, date, stored);
      && Truthy(Get(r, "thumbnailPath"))
      && (k != "thumbnailPath" && k in Keys(stored) ==> Get(r, k) == Get(stored, k))
      && (k !in Keys(stored) + {"thumbnailPath"} ==> Get(r, k) == Get(FileBase(fields, repository, digest, ext, user, date), k))
  {
    var s' := WithThumbnail(stored);
    ExtendGet(FileBase(fields, repository, digest, ext, user, date), s', k);
    ExtendGet(FileBase(fields, repository, digest, ext, user, date), s', "thumbnailPath");
  }

  /** With a backend that reports only the usual metadata, the record names the
      content-addressed file and is not a directory. */
  lemma FileRecordNamesDigest(fields: Fields, repository: string, digest: string, ext: string,
                              user: User, date: int, stored: Object)
    requires IsHexDigest(digest)
    requires Distinct(stored)
    requires "filename" !in Keys(stored) && "directory" !in Keys(stored) && "isDirectory" !in Keys(stored)
    ensures var r := FileRecord(fields, repository, digest, ext, user, date, stored);
      && Get(r, "filename") == Str(digest + ext)
      && Get(r, "directory") == Str(Directory(digest))
      && Get(r, "isDirectory") == Bool(false)
  {
    FileRecordHolds(fields, repository, digest, ext, user, date, stored, "filename");
    FileRecordHolds(fields, repository, digest, ext, user, date, stored, "directory");
    FileRecordHolds(fields, repository, digest, ext, user, date, stored, "isDirectory");
  }

  /** The record literal of the package branch. */
  function PackageRecord(fields: Fields, repository: string, name: string, folder: string,
                         user: User, date: int): Object
  {
    [ ("title", FieldValue(fields.title)),
      ("description", FieldValue(fields.description)),
      ("repository", Str(repository)),
      ("filename", Str(name)),
      ("directory", Str(folder)),
      ("path", Str(folder)),
      ("isDirectory", Bool(true)),
      ("tags", List(TagValues(TagNames(fields.tags)))),
      ("createdBy", Str(user.id)),
      ("dateCreated", Date(date)),
      ("thumbnailPath", Str(DefaultThumbnail)),
      ("assetType", Str("edgeAnimation")) ]
  }

  const PackageKeys: seq<string> :=
    ["title", "description", "repository", "filename", "directory", "path",
     "isDirectory", "tags", "createdBy", "dateCreated", "thumbnailPath", "assetType"]

  /** A package is recorded as a directory: both its directory and its path are
      the extraction folder. */
  lemma PackageRecordIsFolder(fields: Fields, repository: string, name: string, folder: string,
                              user: User, date: int)
    ensures var r := PackageRecord(fields, repository, name, folder, user, date);
      && Get(r, "directory") == Str(folder) && Get(r, "path") == Str(folder)
      && Get(r, "isDirectory") == Bool(true)
  {
    var r := PackageRecord(fields, repository, name, folder, user, date);
    assert Names(r) == PackageKeys;
    GetFirst(r, 4, "directory");
    GetFirst(r, 5, "path");
    GetFirst(r, 6, "isDirectory");
  }

  /** A package carries the default thumbnail and the animation asset type. */
  lemma PackageRecordKind(fields: Fields, repository: string, name: string, folder: string,
                          user: User, date: int)
    ensures var r := PackageRecord(fields, repository, name, folder, user, date);
      && Get(r, "thumbnailPath") == Str(DefaultThumbnail)
      && Get(r, "assetType") == Str("edgeAnimation")
  {
    var r := PackageRecord(fields, repository, name, folder, user, date);
    assert Names(r) == PackageKeys;
    GetFirst(r, 10, "thumbnailPath");
    GetFirst(r, 11, "assetType");
  }

  /** The error types raised by this module, the two exceptions the runtime
      throws on its behalf (a property read of undefined, and `new RegExp` of
      a text that is no valid pattern), and a service's own failure. */
  datatype Error =
    | AssetNotFound(message: string)
    | AssetPermission(message: string)
    | TypeError(message: string)
    | SyntaxError(pattern: string)
    | Upstream(fault: string)

  const NotFoundText: string := "Asset was not found"
  const PermissionText: string := "You are not allowed to do that."

  /** `(message || fallback) + (assetID && (' assetID: ' + assetID))` as written:
      with no id the second operand is undefined, which `+` spells "undefined". */
  function ErrorMessageAsWritten(fallback: string, message: Option<string>, assetId: Option<string>): string {
    var head := if message.Some? && message.value != "" then message.value else fallback;
    match assetId
    case None => head + "undefined"
    case Some(id) => if id == "" then head else head + " assetID: " + id
  }

  /** `new AssetPermissionError()`, as updateAsset and destroyAsset raise it, says
      "You are not allowed to do that.undefined". */
  lemma PermissionMessageAsWritten()
    ensures ErrorMessageAsWritten(PermissionText, None, None) == "You are not allowed to do that.undefined"
  {
  }

  /** The message as intended: the text, then the asset id only when there is one. */
  function ErrorMessage(fallback: string, message: Option<string>, assetId: Option<string>): (m: string)
    ensures var head := if message.Some? && message.value != "" then message.value else fallback;
      && |m| >= |head| && m[..|head|] == head
      && (assetId.None? || assetId == Some("") ==> m == head)
      && (assetId.Some? && assetId.value != "" ==> m[|head|..] == " assetID: " + assetId.value)
  {
    var head := if message.Some? && message.value != "" then message.value else fallback;
    if assetId.Some? && assetId.value != "" then head + " assetID: " + assetId.value else head
  }

  /** The two messages differ exactly when no asset id is given. */
  lemma MessagesAgreeWithId(fallback: string, message: Option<string>, assetId: Option<string>)
    ensures ErrorMessageAsWritten(fallback, message, assetId) == ErrorMessage(fallback, message, assetId)
        <==> assetId.Some?
  {
    var head := if message.Some? && message.value != "" then message.value else fallback;
    if assetId.None? {
      assert |ErrorMessageAsWritten(fallback, message, assetId)| == |head| + 9;
    }
  }

  /** `new AssetNotFoundError(message, assetID)`. */
  function NotFoundError(message: Option<string>, assetId: Option<string>): Error {
    AssetNotFound(ErrorMessage(NotFoundText, message, assetId))
  }

  /** `new AssetPermissionError()`. */
  function PermissionError(): (e: Error)
    ensures e == AssetPermission(PermissionText)
  {
    AssetPermission(ErrorMessage(PermissionText, None, None))
  }
}
