/** The object-name and URL logic of `src/services/files.service.ts`: the
    bucket listing that turns stored objects into image/thumbnail URL pairs,
    the object name an upload is written under, and the object names a
    delete request is turned into. Storage calls are parameters. */
module FilesService {
  import opened Common
  import opened Http
  import opened Text
  import opened UriEncoding
  import opened Utils
  import opened UserModel

  /** `STORAGE_BUCKETS.baseUrl`. */
  const BaseUrl: string := "https://storage.googleapis.com"

  /** `${baseUrl}/${appProject}/`: every public URL of the project starts so. */
  function PublicRoot(project: string): (r: string)
    ensures r == BaseUrl + "/" + project + "/"
  {
    BaseUrl + "/" + project + "/"
  }

  /** `IImageDetails` of `src/models/files.models.ts`. */
  datatype ImageDetails = ImageDetails(original: string, thumbnail: string, isSystemOwned: bool)

  // ----- getAllImagesOnBucket -----

  /** The filter of the listing loop: a real entry with a non-empty name
      longer than the listed prefix, that is not itself a thumbnail.
      `None` stands for a falsy entry or an entry without a name. */
  predicate Listed(bucket: string, file: Option<string>)
  {
    && Truthy(file)
    && |file.value| > |bucket|
    && !Contains(file.value, "_200x200")
  }

  /** `${baseUrl}/${appProject}/${encodeURIComponent(name)}`. */
  function OriginalUrl(project: string, name: string): string
  {
    PublicRoot(project) + EncodeURIComponent(name)
  }

  /** The details pushed for a listed name, as the code computes them:
      the system flag is taken from the encoded URL. */
  function EntryAsWritten(project: string, name: string): ImageDetails
  {
    var originalUrl := OriginalUrl(project, name);
    ImageDetails(originalUrl, GetImageThumbnail(originalUrl, 200), Contains(originalUrl, "system/"))
  }

  /** The details pushed for a listed name, with the system flag taken from
      the URL before its name is encoded. */
  function Entry(project: string, name: string): ImageDetails
  {
    var originalUrl := OriginalUrl(project, name);
    ImageDetails(originalUrl, GetImageThumbnail(originalUrl, 200), Contains(PublicRoot(project) + name, "system/"))
  }

  function KeptOne(bucket: string, project: string, file: Option<string>): seq<ImageDetails>
  {
    if Listed(bucket, file) then [EntryAsWritten(project, file.value)] else []
  }

  /** The `urlArray` the loop has built after the given entries. */
  function Kept(bucket: string, project: string, files: seq<Option<string>>): seq<ImageDetails>
  {
    if |files| == 0 then []
    else Kept(bucket, project, files[..|files| - 1]) + KeptOne(bucket, project, files[|files| - 1])
  }

  /** The reply of `getAllImagesOnBucket(bucket)` for the project setting
      `appProject` and the entries the bucket lists. */
  function Listing(bucket: string, appProject: Option<string>, files: seq<Option<string>>): (r: Option<seq<ImageDetails>>)
    ensures !Truthy(appProject) ==> r.None?
    ensures r.Some? ==> |r.value| > 0
  {
    if !Truthy(appProject) then None
    else
      var urlArray := Kept(bucket, appProject.value, files);
      if |urlArray| > 0 then Some(urlArray) else None
  }

  /** Both URLs of a listed name are non-empty, so the loop's second test
      never drops a name that passed the first. */
  lemma EntryUrlsNonEmpty(project: string, name: string)
    ensures OriginalUrl(project, name) != ""
    ensures GetImageThumbnail(OriginalUrl(project, name), 200) != ""
  {
    assert |PublicRoot(project)| > 0;
  }

  /** One more entry adds what `KeptOne` says to the listing. */
  lemma KeptStep(bucket: string, project: string, files: seq<Option<string>>, i: nat)
    requires i < |files|
    ensures Kept(bucket, project, files[..i + 1]) == Kept(bucket, project, files[..i]) + KeptOne(bucket, project, files[i])
  {
    assert files[..i + 1][..i] == files[..i];
  }

  /** The `forEach` callback for one entry: the items it pushes. */
  method ListEntry(bucket: string, project: string, file: Option<string>) returns (pushed: seq<ImageDetails>)
    ensures pushed == KeptOne(bucket, project, file)
  {
    pushed := [];
    if file.Some? && file.value != "" && |file.value| > |bucket| {
      var name := file.value;
      var originalUrl := "";
      var thumbnailUrl := "";
      if !Contains(name, "_200x200") {
        originalUrl := OriginalUrl(project, name);
        thumbnailUrl := GetImageThumbnail(originalUrl, 200);
        EntryUrlsNonEmpty(project, name);
      }
      if originalUrl != "" && thumbnailUrl != "" {
        pushed := [ImageDetails(originalUrl, thumbnailUrl, Contains(originalUrl, "system/"))];
      }
    }
  }

  /** `getAllImagesOnBucket`: the `forEach` loop pushing into `urlArray`. */
  method GetAllImagesOnBucket(bucket: string, appProject: Option<string>, files: seq<Option<string>>)
    returns (r: Option<seq<ImageDetails>>)
    ensures r == Listing(bucket, appProject, files)
  {
    if !Truthy(appProject) {
      return None;
    }
    var project := appProject.value;
    var urlArray: seq<ImageDetails> := [];
    var i := 0;
    while i < |files|
      invariant 0 <= i <= |files|
      invariant urlArray == Kept(bucket, project, files[..i])
    {
      var pushed := ListEntry(bucket, project, files[i]);
      urlArray := urlArray + pushed;
      KeptStep(bucket, project, files, i);
      i := i + 1;
    }
    assert files[..|files|] == files;
    if |urlArray| > 0 {
      return Some(urlArray);
    }
    return None;
  }

  /** The listing of non-empty entries is that of all but the last, then
      what the last contributes. */
  lemma KeptLast(bucket: string, project: string, files: seq<Option<string>>)
    requires |files| > 0
    ensures Kept(bucket, project, files)
            == Kept(bucket, project, files[..|files| - 1]) + KeptOne(bucket, project, files[|files| - 1])
  {
  }

  /** The listing is built entry by entry, so the output keeps the order of
      the input: the entries of a concatenation come out concatenated. */
  lemma {:induction false} KeptAppend(bucket: string, project: string, a: seq<Option<string>>, b: seq<Option<string>>)
    ensures Kept(bucket, project, a + b) == Kept(bucket, project, a) + Kept(bucket, project, b)
    decreases |b|
  {
    if |b| == 0 {
      assert a + b == a;
    } else {
      var b' := b[..|b| - 1];
      var one := KeptOne(bucket, project, b[|b| - 1]);
      assert (a + b)[..|a + b| - 1] == a + b';
      assert (a + b)[|a + b| - 1] == b[|b| - 1];
      KeptLast(bucket, project, a + b);
      KeptLast(bucket, project, b);
      KeptAppend(bucket, project, a, b');
      calc {
        Kept(bucket, project, a + b);
        Kept(bucket, project, a + b') + one;
        (Kept(bucket, project, a) + Kept(bucket, project, b')) + one;
        Kept(bucket, project, a) + (Kept(bucket, project, b') + one);
        Kept(bucket, project, a) + Kept(bucket, project, b);
      }
    }
  }

  /** One entry on its own is listed exactly when it passes the filter,
      and then as its `EntryAsWritten`. */
  lemma KeptSingle(bucket: string, project: string, file: Option<string>)
    ensures Kept(bucket, project, [file]) == (if Listed(bucket, file) then [EntryAsWritten(project, file.value)] else [])
  {
    assert [file][..0] == [];
  }

  /** An item of the listing after one more entry is an item of the
      listing before it, or the details of that entry. */
  lemma KeptItemAfterStep(bucket: string, project: string, files: seq<Option<string>>, k: nat)
    requires |files| > 0 && k < |Kept(bucket, project, files)|
    ensures var init := files[..|files| - 1];
            var last := files[|files| - 1];
            && (k < |Kept(bucket, project, init)| ==> Kept(bucket, project, files)[k] == Kept(bucket, project, init)[k])
            && (k >= |Kept(bucket, project, init)| ==>
                  Listed(bucket, last) && Kept(bucket, project, files)[k] == EntryAsWritten(project, last.value))
  {
  }

  /** Every listed item comes from an entry that passes the filter, and
      has that entry's URL, its thumbnail and its flag. */
  lemma {:induction false} KeptFromListed(bucket: string, project: string, files: seq<Option<string>>, k: nat)
    requires k < |Kept(bucket, project, files)|
    ensures exists j :: 0 <= j < |files| && Listed(bucket, files[j])
                        && Kept(bucket, project, files)[k] == EntryAsWritten(project, files[j].value)
    decreases |files|
  {
    var init := files[..|files| - 1];
    KeptItemAfterStep(bucket, project, files, k);
    if k < |Kept(bucket, project, init)| {
      KeptFromListed(bucket, project, init, k);
      var j :| 0 <= j < |init| && Listed(bucket, init[j])
               && Kept(bucket, project, init)[k] == EntryAsWritten(project, init[j].value);
      assert files[j] == init[j];
    }
  }

  /** How many of the entries pass the filter. */
  function ListedCount(bucket: string, files: seq<Option<string>>): nat
  {
    if |files| == 0 then 0
    else ListedCount(bucket, files[..|files| - 1]) + (if Listed(bucket, files[|files| - 1]) then 1 else 0)
  }

  /** The listing holds one item per entry that passes the filter. */
  lemma {:induction false} KeptLength(bucket: string, project: string, files: seq<Option<string>>)
    ensures |Kept(bucket, project, files)| == ListedCount(bucket, files)
    decreases |files|
  {
    if |files| > 0 {
      KeptLength(bucket, project, files[..|files| - 1]);
    }
  }

  /** No entry passes the filter exactly when the count is zero. */
  lemma {:induction false} ListedCountZero(bucket: string, files: seq<Option<string>>)
    ensures ListedCount(bucket, files) == 0 <==> forall j :: 0 <= j < |files| ==> !Listed(bucket, files[j])
    decreases |files|
  {
    if |files| > 0 {
      var init := files[..|files| - 1];
      ListedCountZero(bucket, init);
      if forall j :: 0 <= j < |files| ==> !Listed(bucket, files[j]) {
        forall j | 0 <= j < |init|
          ensures !Listed(bucket, init[j])
        {
          assert init[j] == files[j];
        }
      } else {
        var j :| 0 <= j < |files| && Listed(bucket, files[j]);
        if j < |init| {
          assert init[j] == files[j];
        }
      }
    }
  }

  /** Nothing passes the filter exactly when the reply is `null` (given a
      project setting). */
  lemma KeptEmptyIffNoneListed(bucket: string, project: string, files: seq<Option<string>>)
    ensures |Kept(bucket, project, files)| == 0 <==> forall j :: 0 <= j < |files| ==> !Listed(bucket, files[j])
  {
    KeptLength(bucket, project, files);
    ListedCountZero(bucket, files);
  }

  /** The thumbnail of an item is `getImageThumbnail(original, 200)`: the
      same directory with the encoded name rewritten, since the encoded name
      has no `/`. */
  lemma ThumbnailOfEntry(project: string, name: string)
    ensures EntryAsWritten(project, name).thumbnail == GetImageThumbnail(EntryAsWritten(project, name).original, 200)
    ensures EntryAsWritten(project, name).thumbnail
            == BaseUrl + "/" + project + "/" + ThumbnailName(EncodeURIComponent(name), 200)
  {
    ThumbnailKeepsDirectory(BaseUrl + "/" + project, EncodeURIComponent(name), 200);
  }

  /** An occurrence of a word in a prefix survives any extension. */
  lemma {:induction false} ContainsExtended(x: string, e: string, w: string)
    requires Contains(x, w)
    ensures Contains(x + e, w)
    decreases |x|
  {
    if w <= x {
      assert (x + e)[..|w|] == x[..|w|];
    } else {
      assert (x + e)[1..] == x[1..] + e;
      ContainsExtended(x[1..], e, w);
    }
  }

  /** As written, the system flag does not depend on the file at all: the
      encoded name has no `/`, so `system/` can only occur in the root. */
  lemma SystemFlagAsWrittenIgnoresName(project: string, name: string)
    ensures EntryAsWritten(project, name).isSystemOwned == Contains(PublicRoot(project), "system/")
  {
    var root := PublicRoot(project);
    var enc := EncodeURIComponent(name);
    if Contains(root + enc, "system/") {
      ContainsBeforeFreeTail(root, enc, "system/", '/');
    }
    if Contains(root, "system/") {
      ContainsExtended(root, enc, "system/");
    }
  }

  /** With a project name that cannot hold `system/`, no item is ever
      flagged as written, even one stored under `system/`. */
  lemma SystemFileNotFlaggedAsWritten(project: string, rest: string)
    requires 'y' !in project
    ensures !EntryAsWritten(project, "system/" + rest).isSystemOwned
  {
    assert 'y' !in BaseUrl;
    var root := PublicRoot(project);
    assert 'y' !in root;
    NotContainsMissingChar(root, "system/", 'y');
    SystemFlagAsWrittenIgnoresName(project, "system/" + rest);
  }

  /** Corrected, an item stored under `system/` is flagged, and as written
      and corrected items differ in nothing but the flag. */
  lemma SystemFileFlagged(project: string, rest: string)
    ensures Entry(project, "system/" + rest).isSystemOwned
    ensures EntryAsWritten(project, "system/" + rest).(isSystemOwned := true) == Entry(project, "system/" + rest)
  {
    ContainsInMiddle(PublicRoot(project), "system/", rest);
    assert PublicRoot(project) + "system/" + rest == PublicRoot(project) + ("system/" + rest);
  }

  lemma EntriesDifferOnlyInFlag(project: string, name: string)
    ensures EntryAsWritten(project, name) == Entry(project, name).(isSystemOwned := Contains(PublicRoot(project), "system/"))
  {
    SystemFlagAsWrittenIgnoresName(project, name);
  }

  /** The listing with the system flag taken from the name before it is
      encoded. */
  function KeptCorrected(bucket: string, project: string, files: seq<Option<string>>): seq<ImageDetails>
  {
    if |files| == 0 then []
    else
      var last := files[|files| - 1];
      KeptCorrected(bucket, project, files[..|files| - 1]) + (if Listed(bucket, last) then [Entry(project, last.value)] else [])
  }

  /** The reply of `getAllImagesOnBucket` with the corrected system flag. */
  function ListingCorrected(bucket: string, appProject: Option<string>, files: seq<Option<string>>): (r: Option<seq<ImageDetails>>)
    ensures !Truthy(appProject) ==> r.None?
    ensures r.Some? ==> |r.value| > 0
  {
    if !Truthy(appProject) then None
    else
      var urlArray := KeptCorrected(bucket, appProject.value, files);
      if |urlArray| > 0 then Some(urlArray) else None
  }

  /** Every item with its flag replaced by whether the root holds `system/`. */
  function FlagAsWritten(project: string, l: seq<ImageDetails>): seq<ImageDetails>
  {
    seq(|l|, k requires 0 <= k < |l| => l[k].(isSystemOwned := Contains(PublicRoot(project), "system/")))
  }

  lemma FlagAsWrittenAppend(project: string, a: seq<ImageDetails>, b: seq<ImageDetails>)
    ensures FlagAsWritten(project, a + b) == FlagAsWritten(project, a) + FlagAsWritten(project, b)
  {
  }

  /** One entry: what the as-written listing keeps of it is what the
      corrected listing keeps, with the flag replaced. */
  lemma KeptOneFlaggedAsWritten(bucket: string, project: string, file: Option<string>)
    ensures KeptOne(bucket, project, file)
            == FlagAsWritten(project, if Listed(bucket, file) then [Entry(project, file.value)] else [])
  {
    if Listed(bucket, file) {
      EntriesDifferOnlyInFlag(project, file.value);
    }
  }

  /** The as-written listing of a bucket is the corrected one with every
      flag replaced by the root's: same items, same order, and a flag that
      says nothing about the item. */
  lemma {:induction false} KeptFlaggedAsWritten(bucket: string, project: string, files: seq<Option<string>>)
    ensures Kept(bucket, project, files) == FlagAsWritten(project, KeptCorrected(bucket, project, files))
    decreases |files|
  {
    if |files| > 0 {
      var init := files[..|files| - 1];
      var last := files[|files| - 1];
      var tail := if Listed(bucket, last) then [Entry(project, last.value)] else [];
      KeptFlaggedAsWritten(bucket, project, init);
      KeptOneFlaggedAsWritten(bucket, project, last);
      FlagAsWrittenAppend(project, KeptCorrected(bucket, project, init), tail);
    }
  }

  /** The same for the replies: both are `null` together, and otherwise
      differ only in the flags. */
  lemma ListingFlaggedAsWritten(bucket: string, appProject: Option<string>, files: seq<Option<string>>)
    ensures Listing(bucket, appProject, files).None? <==> ListingCorrected(bucket, appProject, files).None?
    ensures Listing(bucket, appProject, files).Some?
            ==> Listing(bucket, appProject, files).value
                == FlagAsWritten(appProject.value, ListingCorrected(bucket, appProject, files).value)
  {
    if Truthy(appProject) {
      KeptFlaggedAsWritten(bucket, appProject.value, files);
    }
  }

  // ----- uploadFileToStorage -----

  /** A request-body field written into a template literal. */
  function TemplateText(f: Field<string>): (r: string)
    ensures f.Value? ==> r == f.value
    ensures f.Undefined? ==> r == "undefined"
    ensures f.Null? ==> r == "null"
  {
    match f
    case Value(s) => s
    case Undefined => "undefined"
    case Null => "null"
  }

  /** `image.originalname.split(".")[1]`: the second dot-part, or the text
      "undefined" when the name has no dot. */
  function FileExtension(originalName: string): string
  {
    DestructuredText(Split(originalName, '.'), 1)
  }

  /** `users/${userId}/${userFolderName}/${userId}_${timeStamp}.${fileExtension}`. */
  function UploadObjectName(userId: Field<string>, userFolderName: Field<string>, timeStamp: string, originalName: string): string
  {
    "users/" + TemplateText(userId) + "/" + TemplateText(userFolderName) + "/"
      + TemplateText(userId) + "_" + timeStamp + "." + FileExtension(originalName)
  }

  /** The extension is the second dot-part of the upload's name, whatever
      follows a second dot. */
  lemma ExtensionOfDottedName(stem: string, ext: string, tail: string)
    requires '.' !in stem && '.' !in ext
    requires tail == "" || tail[0] == '.'
    ensures FileExtension(stem + "." + ext + tail) == ext
  {
    DotParts(stem, ext, tail);
  }

  /** The object lies in the user's folder, and its last segment is the id,
      the time stamp and the extension of the upload's name. */
  lemma UploadObjectNameShape(userId: string, folder: string, timeStamp: string, stem: string, ext: string, tail: string)
    requires '.' !in stem && '.' !in ext
    requires tail == "" || tail[0] == '.'
    ensures UploadObjectName(Value(userId), Value(folder), timeStamp, stem + "." + ext + tail)
            == "users/" + userId + "/" + folder + "/" + userId + "_" + timeStamp + "." + ext
  {
    ExtensionOfDottedName(stem, ext, tail);
  }

  /** A name without a dot gets the extension "undefined". */
  lemma UndottedUploadName(originalName: string)
    requires '.' !in originalName
    ensures FileExtension(originalName) == "undefined"
  {
    assert Split(originalName, '.') == [originalName];
  }

  /** `${baseUrl}/${appProject}/${fileName}`: the URL of a stored object. */
  function PublicUrl(project: string, objectName: string): string
  {
    PublicRoot(project) + objectName
  }

  /** How the write stream of an upload ends. */
  datatype UploadEvent =
    | StreamError(message: string)  // the stream's `error` event
    | Finished                      // `finish`, and `makePublic` succeeds
    | PublishFailed(message: string) // `finish`, and `makePublic` throws

  /** The reply after the checks: the `error` reply, or on `finish` the
      status 200 with the JSON body `finishBody`. */
  function UploadReply(event: UploadEvent, finishBody: Option<string>): Response<Option<string>>
  {
    match event
    case StreamError(m) => Fail(BadRequest, FileUploadGeneralError, ErrorText(m))
    case Finished => Respond(Ok, Payload(finishBody))
    case PublishFailed(_) => Unhandled
  }

  /** `uploadFileToStorage`, with the user lookup, the project setting, the
      upload's original name, the time stamp and the stream outcome as
      parameters. `stored` is the object name written; the payload is the
      JSON body, `None` for `undefined`. `asWritten` chooses the code's
      finish reply, which reads `firebaseUrl` from the request's original
      file object, where it was never set; otherwise the URL just built. */
  function UploadFileToStorageWith(
    asWritten: bool,
    userId: Field<string>, userFolderName: Field<string>, originalName: string,
    appProject: Option<string>, timeStamp: string,
    userById: Field<string> -> Lookup<User>, event: UploadEvent): Handled<string, Option<string>>
  {
    match userById(userId)
    case Threw(_) => Handled(None, Unhandled)
    case NotFound => Handled(None, Fail(BadRequest, UserNotFound, NoDetails))
    case Found(_) =>
      if !Truthy(appProject) then
        Handled(None, Fail(ServerError, InternalError, ErrorText("No bucket env var found")))
      else
        var fileName := UploadObjectName(userId, userFolderName, timeStamp, originalName);
        var firebaseUrl := PublicUrl(appProject.value, fileName);
        Handled(Some(fileName), UploadReply(event, if asWritten then None else Some(firebaseUrl)))
  }

  /** The upload handler as written. */
  function UploadFileToStorageAsWritten(
    userId: Field<string>, userFolderName: Field<string>, originalName: string,
    appProject: Option<string>, timeStamp: string,
    userById: Field<string> -> Lookup<User>, event: UploadEvent): (r: Handled<string, Option<string>>)
    ensures r.stored.Some? <==> userById(userId).Found? && Truthy(appProject)
    ensures r.stored.Some? ==> r.stored.value == UploadObjectName(userId, userFolderName, timeStamp, originalName)
    ensures userById(userId).Threw? ==> r == Handled(None, Unhandled)
    ensures userById(userId).NotFound? ==> r.response == Fail(BadRequest, UserNotFound, NoDetails)
    ensures userById(userId).Found? && !Truthy(appProject)
            ==> r.response == Fail(ServerError, InternalError, ErrorText("No bucket env var found"))
    ensures r.stored.Some? && event.StreamError?
            ==> r.response == Fail(BadRequest, FileUploadGeneralError, ErrorText(event.message))
    ensures r.stored.Some? && event.PublishFailed? ==> r.response == Unhandled
    ensures event.Finished? && userById(userId).Found? && Truthy(appProject)
            ==> r.response == Respond(Ok, Payload(None))
  {
    UploadFileToStorageWith(true, userId, userFolderName, originalName, appProject, timeStamp, userById, event)
  }

  /** The upload handler answering with the public URL of what it stored. */
  function UploadFileToStorage(
    userId: Field<string>, userFolderName: Field<string>, originalName: string,
    appProject: Option<string>, timeStamp: string,
    userById: Field<string> -> Lookup<User>, event: UploadEvent): (r: Handled<string, Option<string>>)
    ensures r.stored.Some? <==> userById(userId).Found? && Truthy(appProject)
    ensures r.stored.Some? ==> r.stored.value == UploadObjectName(userId, userFolderName, timeStamp, originalName)
    ensures userById(userId).NotFound? ==> r.response == Fail(BadRequest, UserNotFound, NoDetails)
    ensures userById(userId).Found? && !Truthy(appProject)
            ==> r.response == Fail(ServerError, InternalError, ErrorText("No bucket env var found"))
    ensures userById(userId).Threw? ==> r == Handled(None, Unhandled)
    ensures r.stored.Some? && event.StreamError?
            ==> r.response == Fail(BadRequest, FileUploadGeneralError, ErrorText(event.message))
    ensures r.stored.Some? && event.PublishFailed? ==> r.response == Unhandled
    ensures r.stored.Some? && event.Finished?
            ==> r.response == Respond(Ok, Payload(Some(PublicUrl(appProject.value, r.stored.value))))
  {
    UploadFileToStorageWith(false, userId, userFolderName, originalName, appProject, timeStamp, userById, event)
  }

  /** The handler as written and the corrected one store the same object
      and answer alike, except for the reply to a finished upload. */
  lemma UploadVariantsAgree(
    userId: Field<string>, userFolderName: Field<string>, originalName: string,
    appProject: Option<string>, timeStamp: string,
    userById: Field<string> -> Lookup<User>, event: UploadEvent)
    ensures UploadFileToStorageAsWritten(userId, userFolderName, originalName, appProject, timeStamp, userById, event).stored
            == UploadFileToStorage(userId, userFolderName, originalName, appProject, timeStamp, userById, event).stored
    ensures !(event.Finished? && userById(userId).Found? && Truthy(appProject)) ==>
              UploadFileToStorageAsWritten(userId, userFolderName, originalName, appProject, timeStamp, userById, event).response
              == UploadFileToStorage(userId, userFolderName, originalName, appProject, timeStamp, userById, event).response
  {
  }

  // ----- deleteFile / deleteFileFromStorage -----

  /** `url.replace(`${baseUrl}/${appProject}/`, "")`. */
  function ObjectNameFromUrl(project: string, url: string): string
  {
    ReplaceFirst(url, PublicRoot(project), "")
  }

  /** The delete name of a stored object's public URL is the object's name. */
  lemma ObjectNameRoundTrip(project: string, objectName: string)
    ensures ObjectNameFromUrl(project, PublicUrl(project, objectName)) == objectName
  {
    ReplaceFirstAtStart(PublicRoot(project), objectName, "");
    assert "" + objectName == objectName;
  }

  /** A URL that does not hold the root at all is used as the object name
      unchanged. */
  lemma ForeignUrlKept(project: string, url: string)
    requires !Contains(url, PublicRoot(project))
    ensures ObjectNameFromUrl(project, url) == url
  {
    ReplaceFirstAbsent(url, PublicRoot(project), "");
  }

  /** A URL from the listing names the ENCODED object: for a stored name
      with a `/` the delete name differs from the stored one. */
  lemma ListedUrlNamesEncodedObject(project: string, name: string)
    ensures ObjectNameFromUrl(project, OriginalUrl(project, name)) == EncodeURIComponent(name)
    ensures '/' in name ==> ObjectNameFromUrl(project, OriginalUrl(project, name)) != name
  {
    ObjectNameRoundTrip(project, EncodeURIComponent(name));
  }

  /** The object name of the thumbnail beside a stored object: the object's
      directory with its last segment rewritten. */
  lemma ThumbnailObjectName(project: string, dir: string, segment: string)
    requires '/' !in segment
    ensures ObjectNameFromUrl(project, GetImageThumbnail(PublicUrl(project, dir + "/" + segment), 200))
            == dir + "/" + ThumbnailName(segment, 200)
  {
    var thumbObject := dir + "/" + ThumbnailName(segment, 200);
    ThumbnailUnderPrefix(PublicRoot(project), dir, segment, 200);
    ReplaceFirstAtStart(PublicRoot(project), thumbObject, "");
    assert "" + thumbObject == thumbObject;
  }

  /** `deleteFile(url)`: `false` without a project setting, otherwise whether
      the storage delete of the derived object succeeds. */
  function DeleteFile(url: string, appProject: Option<string>, remove: string -> Outcome<()>): (r: bool)
    ensures r <==> Truthy(appProject) && remove(ObjectNameFromUrl(appProject.value, url)).Returned?
  {
    if !Truthy(appProject) then false
    else
      match remove(ObjectNameFromUrl(appProject.value, url))
      case Returned(_) => true
      case Raised(_) => false
  }

  /** `deleteFileFromStorage`: `stored` lists the object names whose delete
      was requested, in order. */
  function DeleteFileFromStorage(
    url: Option<string>, userId: Option<string>, appProject: Option<string>,
    userById: string -> Lookup<User>, remove: string -> Outcome<()>): (r: Handled<seq<string>, ()>)
    ensures !Truthy(url) || !Truthy(userId) ==> r == Handled(None, Fail(BadRequest, MissingProps, DetailMessage(MissingProps)))
    ensures Truthy(url) && Truthy(userId) && userById(userId.value).NotFound?
            ==> r == Handled(None, Fail(BadRequest, UserNotFound, NoDetails))
    ensures Truthy(url) && Truthy(userId) && userById(userId.value).Threw? ==> r == Handled(None, Unhandled)
    ensures Truthy(url) && Truthy(userId) && userById(userId.value).Found? && !Truthy(appProject)
            ==> r == Handled(None, Fail(ServerError, InternalError, ErrorText("No bucket env var found")))
    ensures r.stored.Some? <==> Truthy(url) && Truthy(userId) && userById(userId.value).Found? && Truthy(appProject)
    ensures r.stored.Some? ==>
              var fileName := ObjectNameFromUrl(appProject.value, url.value);
              var thumbName := ObjectNameFromUrl(appProject.value, GetImageThumbnail(url.value, 200));
              && (remove(fileName).Raised? ==>
                    r == Handled(Some([fileName]), Fail(BadRequest, FileDeleteGeneralError, ErrorText(remove(fileName).message))))
              && (remove(fileName).Returned? ==>
                    && r.stored == Some([fileName, thumbName])
                    && r.response == Succeed(FileDeleteSuccess,
                         DetailMessage(if remove(thumbName).Returned? then ThumbnailDeleted else ThumbnailNotDeleted)))
  {
    if !Truthy(url) || !Truthy(userId) then
      Handled(None, Fail(BadRequest, MissingProps, DetailMessage(MissingProps)))
    else
      match userById(userId.value)
      case Threw(_) => Handled(None, Unhandled)
      case NotFound => Handled(None, Fail(BadRequest, UserNotFound, NoDetails))
      case Found(_) =>
        if !Truthy(appProject) then
          Handled(None, Fail(ServerError, InternalError, ErrorText("No bucket env var found")))
        else
          var fileName := ObjectNameFromUrl(appProject.value, url.value);
          var thumbFileName := ObjectNameFromUrl(appProject.value, GetImageThumbnail(url.value, 200));
          match remove(fileName)
          case Raised(m) => Handled(Some([fileName]), Fail(BadRequest, FileDeleteGeneralError, ErrorText(m)))
          case Returned(_) =>
            match remove(thumbFileName)
            case Returned(_) => Handled(Some([fileName, thumbFileName]), Succeed(FileDeleteSuccess, DetailMessage(ThumbnailDeleted)))
            case Raised(_) => Handled(Some([fileName, thumbFileName]), Succeed(FileDeleteSuccess, DetailMessage(ThumbnailNotDeleted)))
  }

  /** With every check passed and the file's delete returning, the file's
      object and then its thumbnail's object are deleted. */
  lemma DeleteRequests(
    url: string, userId: string, project: string,
    userById: string -> Lookup<User>, remove: string -> Outcome<()>)
    requires url != "" && userId != "" && project != ""
    requires userById(userId).Found? && remove(ObjectNameFromUrl(project, url)).Returned?
    ensures DeleteFileFromStorage(Some(url), Some(userId), Some(project), userById, remove).stored
            == Some([ObjectNameFromUrl(project, url), ObjectNameFromUrl(project, GetImageThumbnail(url, 200))])
  {
  }

  /** Deleting an uploaded object by its public URL targets that very object
      and then its thumbnail. */
  lemma DeleteTargetsUploadedObject(
    project: string, dir: string, segment: string, userId: string,
    userById: string -> Lookup<User>, remove: string -> Outcome<()>)
    requires '/' !in segment && project != "" && userId != ""
    requires userById(userId).Found? && remove(dir + "/" + segment).Returned?
    ensures DeleteFileFromStorage(Some(PublicUrl(project, dir + "/" + segment)), Some(userId), Some(project), userById, remove).stored
            == Some([dir + "/" + segment, dir + "/" + ThumbnailName(segment, 200)])
  {
    var url := PublicUrl(project, dir + "/" + segment);
    ObjectNameRoundTrip(project, dir + "/" + segment);
    ThumbnailObjectName(project, dir, segment);
    DeleteRequests(url, userId, project, userById, remove);
  }
}
