# Pagefy API core in Dafny

This project models the request-handling core of the Pagefy API. Pagefy is
a link-in-bio page builder: a user owns pages; a page holds three ordered
lists of components (text, image, icon, video, launch, counter, …); the
features a page may use depend on the owner's subscription plan.

The modelled parts are:

- **Plan gate** (`PlanGate`). Before a page is served, its component
  animations, component launch dates and custom scripts are stripped when
  the owner's plan lacks them. The analytics flag is read from the plan.
- **Page documents** (`PagesModel`, `PageSchema`). These are the page and
  component interfaces, the closed `ComponentType` enumeration, and the
  storage schemas that accept or refuse a document. The interface types
  are encoded into documents and decoded back.
- **Page handlers** (`PagesController`). Fetching a page by id or url,
  listing a user's pages, and creating and updating a page, with the
  owner check (`validateTokenByUserId`) they share.
- **User handlers** (`UserController`). The authorisation test
  `isUserAuthorized`, and `doesUserExist`, `getUser`, `getUserPlan`,
  `createUser` and `deleteUser`.
- **Storage names** (`FilesService`). Listing a bucket's images as
  original/thumbnail URL pairs, with a method whose loop is proved against
  a specification function. Also the object name an upload is stored
  under, and the object names a delete request derives from a public URL.
- **Middlewares**. `ApiKey` is the system API-key check.
  `Lang.Request.HandleLocalizedMessages` selects the message table for the
  request and then calls `next` once.
- **Helpers** (`Utils`, `Text`, `UriEncoding`). These are the thumbnail
  path rewrite, the space replacement, and the JavaScript string operations
  they rest on: `split`, `join`, `includes`, `replace` with a string
  pattern, and `encodeURIComponent`.

Handlers are functions from the request's fields and the outcomes of the
repository and storage calls to the reply. Each such call is a parameter:
a lookup that finds a document, yields `null` or throws (`Lookup`), or a
call that returns or throws (`Outcome`). A throw outside a handler's `try`
block is `Unhandled`: the handler itself sends nothing. A handler that
writes reports what it handed to the store (`Handled.stored`). The
language middleware changes the request in place, so it is a class whose
method updates the request's `messages` field.

JavaScript details are spelled out rather than assumed:

- Truthiness: "" is falsy (`Truthy`).
- `undefined` and `null` are distinct body fields (`Field`).
- Destructuring a missing array element writes "undefined" into a template
  literal.
- `replace` with a string pattern replaces only its first occurrence.
- `encodeURIComponent` percent-encodes the UTF-8 bytes of everything but
  the unreserved characters.

The connection options of `src/config/mongo.ts:11-17` (`useFindAndModify`,
`useCreateIndex`) are those of Mongoose 5, which Mongoose 6 refuses, so the
schemas are read by Mongoose 5's rules. There, a path declared as
`{ type: { ... } }` with a plain object is a Mixed path: the store keeps
any value there and never checks the `required` flags written inside it.
This is the case of `style`, `layout`, `iconDetails` and `animation`. The
connection also sets `ignoreUndefined`, so a query key whose value is
`undefined` is dropped from the filter, and `findOne({ _id: undefined })`
matches the first stored document. Paths typed `Schema.Types.ObjectId`, and
every `_id`, take only text the ObjectId cast accepts: 24 hexadecimal
digits or 12 characters.

The project-bucket setting `STORAGE_BUCKETS.appProject` is a parameter of
the storage operations. `src/constants/index.ts:100-108` defines no
`appProject` key (its bucket key is `socialbioProject`). With those
constants, every storage operation takes its "no bucket setting" branch.
The model covers both branches.

## Model

| member | source | states |
|---|---|---|
| PlanGate.RemoveAnimationsIfNotInPlan | src/utils/user-plan/index.ts:4-26 | With `animations` in the plan the page is returned unchanged. Otherwise, in each of the three lists (an absent list stays absent), every component's `animation` is cleared, every other field and the order are kept, and the page-level fields are untouched. |
| PlanGate.RemoveComponentsLaunchDateIfNotInPlan | src/utils/user-plan/index.ts:28-50 | The same for `launchDate` under `componentActivationSchedule`. |
| PlanGate.RemoveCustomJsIfNotInPlan | src/utils/user-plan/index.ts:52-66 | With `customJs` in the plan the page is unchanged. Otherwise `customScripts` becomes present with both scripts absent, even on a page that had none. Nothing else changes. |
| PlanGate.HasAnalyticsInPlan | src/utils/user-plan/index.ts:68-69 | True exactly when there is a plan and its `analytics` flag is set. |
| PlanGate.MapComponents | src/utils/user-plan/index.ts:11-23 | `list?.map(f)`: an absent list stays absent; a present one keeps its length and maps element by element. |
| PlanGate.AnimationStripIsIdentity | src/utils/user-plan/index.ts:4-26 | The animation strip changes nothing exactly when the plan allows animations or no component in any list has one. |
| PlanGate.AnimationStripIdempotent | src/utils/user-plan/index.ts:4-26 | Stripping animations twice is the same as stripping them once. |
| PlanGate.LaunchDateStripIdempotent | src/utils/user-plan/index.ts:28-50 | Stripping launch dates twice is the same as once. |
| PlanGate.CustomJsStripIdempotent | src/utils/user-plan/index.ts:52-66 | Stripping scripts twice is the same as once. |
| PlanGate.StripsCommute | src/utils/user-plan/index.ts:4-50 | The animation and launch-date strips commute, whatever plan each is given. |
| PlanGate.CustomJsStripCommutes | src/utils/user-plan/index.ts:4-66 | The script strip commutes with both component strips. |
| PagesModel.FromCode | src/models/pages.models.ts:64-76 | A stored number denotes an enumeration member exactly when it is 0 through 10, and that member's code is the number. |
| PagesModel.ComponentTypeCodes | src/models/pages.models.ts:64-76 | Every member has a code in 0..10 that maps back to it; distinct members have distinct codes. |
| PageSchema.EncodeComponents | src/models/pages.models.ts:158-160 | A component list is stored as an array of component sub-documents, one per component, in order; an absent list leaves the path unset. |
| PageSchema.EncodedCountersAccepted | src/models/pages.models.ts:124-131 | Counter entries encode to a document the counters sub-schema (an array of checked sub-documents) accepts exactly when no label is empty. |
| PageSchema.EncodedComponentAccepted | src/models/pages.models.ts:83-136 | With `style`, `layout`, `iconDetails` and `animation` read as Mixed paths, the component schema accepts a component's encoding exactly when its id, if any, passes the ObjectId cast and its counter labels are non-empty. An empty animation name or icon text is stored. |
| PageSchema.MixedPathsUnchecked | src/models/pages.models.ts:87-122 | In an accepted component document, `style`, `iconDetails` and `animation` may be replaced by any value and `layout` by any value but a missing one or `null`: the flags declared inside these paths are never checked. |
| PageSchema.EncodedListAccepted | src/models/pages.models.ts:158-160 | A component list's encoding is accepted exactly when every component's is. |
| PageSchema.EncodedPageAccepted | src/models/pages.models.ts:138-169 | The page schema accepts a page's encoding exactly when `userId`, the page id and every component id pass the ObjectId cast, `name` and `url` are non-empty, and every counter label is non-empty. |
| PageSchema.DecodeComponent | src/models/pages.models.ts:83-136 | A component document read back stands for an interface value exactly when the schema accepts it, its Mixed paths hold the shapes the interface declares, and its `type` number is an enumeration code. |
| PageSchema.CountersRoundTrip | src/models/pages.models.ts:124-131 | Counter entries with non-empty labels decode back to themselves. |
| PageSchema.ComponentRoundTrip | src/models/pages.models.ts:83-136 | Every storable component whose id, if any, is in the store's spelling decodes back to itself. |
| PageSchema.TypeCodeNotEnforced | src/models/pages.models.ts:105 | The schema accepts `type` 11, which names no component type: the enumeration is not enforced in storage. |
| PageSchema.LayoutShapeNotEnforced | src/models/pages.models.ts:98-104 | The schema accepts a `layout` sent as an empty object, although `rows` and `columns` are declared `required`; no interface value stands for the document. |
| PagesController.ParamField | src/controllers/pages.controller.ts:133-139 | A missing route parameter is handed on as `undefined`, a present one as its value. |
| PagesController.ValidateTokenByUserId | src/controllers/pages.controller.ts:327-346 | No objection exactly when the user exists and its email equals the token's. An unknown user gives 400 `USER_ASSOCIATED_TO_PAGE_NOT_FOUND`, another email 401 `NOT_AUTHORIZED` with `TOKEN_FROM_ANOTHER_USER`, and a throwing lookup escapes. |
| PagesController.NoTokenNoOwnerCheck | src/controllers/pages.controller.ts:195-204 | Without a token email the owner check never objects. |
| PagesController.GetPageById | src/controllers/pages.controller.ts:11-58 | A missing id gives 400 `PAGE_ID_MISSING`. The reply is 200 with the page exactly when the page is found, 400 `PAGE_NOT_FOUND` when it is not, and 500 with the error text exactly when the lookup throws. |
| PagesController.GetPageByUrl | src/controllers/pages.controller.ts:60-107 | The same ladder keyed by url, with 400 `URL_MISSING_IN_PARAMS` for a missing url. |
| PagesController.GetAllUserPagesByUserId | src/controllers/pages.controller.ts:109-167 | The owner check runs first; a missing id gives 400; a `null` from the store gives 400 `USER_HAS_NO_PAGES`; any list, even the empty one, is 200; a throwing store call gives 500 `INTERNAL_ERROR` with its message. |
| PagesController.EmptyListIsSuccess | src/controllers/pages.controller.ts:152-161 | An empty page list is answered 200 with `[]`. |
| PagesController.StripLeadingSlash | src/controllers/pages.controller.ts:225-227 | One leading `/` of the url is removed; any other url is kept. |
| PagesController.OneSlashRemoved | src/controllers/pages.controller.ts:225-227 | Exactly one slash goes: `//x` keeps one, `/` becomes empty, and two applications strip `//x` to `x`. |
| PagesController.Normalised | src/controllers/pages.controller.ts:225-227 | The body after normalisation differs from the request body only in its stripped url. |
| PagesController.CreateUserPage | src/controllers/pages.controller.ts:169-252 | A token with no body escapes; no token and no body gives 400 `PAGE_REQUIRED`. An objecting owner check is sent as the reply. Invalid fields give 400 `PAGE_INVALID`, a taken normalised url 400 `PAGE_URL_ALREADY_EXIST`, and a throwing url check escapes; none of these writes. The page is handed to the store exactly when the owner check passes, the fields are valid and the normalised url is free, and what is stored is the normalised body. The store's reply gives 200 with the page, 400 `PAGE_CREATING` on `null`, and 500 with the error text on a throw. |
| PagesController.SlashUrlStoredEmpty | src/controllers/pages.controller.ts:225-227 | A page whose url is `/` is stored with the empty url. |
| PagesController.TakenUrlWritesNothing | src/controllers/pages.controller.ts:229-235 | A taken url stops creation before any write, with 400 `PAGE_URL_ALREADY_EXIST`. |
| PagesController.UpdateUserPage | src/controllers/pages.controller.ts:254-325 | The same owner check, `PAGE_REQUIRED` and field checks as creation, each answered without a write, and no url check. Exactly the valid bodies are stored, unchanged. The store's reply gives 200 with the page, 400 `PAGE_UPDATING` on `null`, and 500 with the error text on a throw. |
| PagesController.CreateAndUpdateValidateAlike | src/controllers/pages.controller.ts:169-325 | Past the owner check, both refuse the same bodies with 400 `PAGE_INVALID`. Update writes exactly the valid bodies, as they came; creation writes exactly the valid bodies whose normalised url is free, with that url in place of the sent one. |
| UserController.IsUserAuthorized | src/controllers/user.controller.ts:494-503 | Refused exactly when the token email, the token uid and the auth id are all present and the auth id differs from the uid. |
| UserController.AuthorizedWithoutAuthId | src/controllers/user.controller.ts:494-503 | With no auth id, with a matching uid, or with no token, the caller is authorised. |
| UserController.DoesUserExistWith | src/controllers/user.controller.ts:10-69 | With neither email nor id, 400 `USERID_OR_EMAIL_REQUIRED`, and only then. The id lookup runs when an id is given; the email lookup runs when an email is given and the id lookup did not run or found nothing. The reply is 200 exactly when a key is given and no lookup that runs throws, and it answers whether a lookup found a user. A throwing lookup gives 500 `INTERNAL_ERROR` with its message. |
| UserController.DoesUserExistAsWritten | src/controllers/user.controller.ts:54-56 | As written, the id lookup is asked about the email; 400 without keys, 200 exactly when no lookup that runs throws, otherwise 500. |
| UserController.DoesUserExist | src/controllers/user.controller.ts:10-69 | The id lookup is asked about the user id; 400 without keys, 200 exactly when no lookup that runs throws, otherwise 500. |
| UserController.DoesUserExistMissesById | src/controllers/user.controller.ts:54-56 | Against the stored users, a query with only `userId` is answered, as written, with whether any user is stored at all, and corrected with whether a user with that id is stored. |
| UserController.DoesUserExistEmailFailsCast | src/controllers/user.controller.ts:54-56 | As written, a query with an id and an email that is not ObjectId text is answered 500 with the cast error, whatever is stored. |
| UserController.GetUserWith | src/controllers/user.controller.ts:71-154 | Exactly one lookup runs, chosen by the first present of id, email, auth id. None present gives 400 `MISSING_PROPS`, and the 401 branch is never taken. |
| UserController.GetUserAsWritten | src/controllers/user.controller.ts:127-128 | As written, the id lookup is handed the email, so a user found by it under that key is returned. |
| UserController.GetUser | src/controllers/user.controller.ts:71-154 | A user found by id is returned with 200. |
| UserController.GetUserFollowsPriority | src/controllers/user.controller.ts:124-153 | The reply depends only on the outcome of the chosen lookup: found is 200 with the user, `null` is 400 `USER_NOT_FOUND`, a throw is 500. |
| UserController.GetUserMissesById | src/controllers/user.controller.ts:127-128 | Against the stored users, a query with only `userId` is answered, as written, with 200 and the first stored user whoever it is (400 `USER_NOT_FOUND` when none is stored). Corrected, it is 200 with a user having that id exactly when one is stored, and otherwise 400 `USER_NOT_FOUND`. |
| UserController.GetUserPlan | src/controllers/user.controller.ts:225-276 | A missing id gives 400 `USER_ID_MISSING`. The reply is 200 with the user's plan exactly when the user is found; a `null` gives 400 `USER_NOT_FOUND`; a throwing lookup gives 500 `INTERNAL_ERROR` with its message. |
| UserController.CreateUser | src/controllers/user.controller.ts:278-365 | With a built-in default plan to read: a missing body escapes; an unauthorised token gives 401; missing required fields give 400 `USER_INVALID`. The user is stored exactly when the caller is authorised and the fields are present, with the default plan in place of the sent one. The store's reply gives 200 with the user, 400 `USER_CREATING` on `null`, and 500 with the error text on a throw. |
| UserController.CreateUserAsWritten | src/controllers/user.controller.ts:340-345 | As written, nothing is ever stored: every authorised request with the required fields ends in 500 with the type error raised by reading `PlansTypes.PLATINUM`. |
| UserController.ClientPlanIgnored | src/controllers/user.controller.ts:340-350 | Whatever plan the client sends, the stored user gets the default plan. |
| UserController.UserRequiredUnreachable | src/controllers/user.controller.ts:305-325 | `createUser` never answers `USER_REQUIRED`. |
| UserController.DeleteUser | src/controllers/user.controller.ts:433-492 | A missing user id or auth id gives 400 `INVALID_REQUEST` before the token is looked at. An unauthorised caller gets 401. Otherwise the service's reply is passed on, and a throwing service gives 500 `INTERNAL_ERROR` with its message. |
| UserController.DeleteChecksIdsBeforeToken | src/controllers/user.controller.ts:465-474 | A request missing either id gets the same reply whatever the token and the service. |
| UserModel.FindUserById | src/services/user.service.ts:20-28 | An undefined key matches the first stored user (`null` when none is stored). A key that is not ObjectId text throws the cast error. Otherwise the reply is a user with that id exactly when one is stored, and `null` when none is. |
| Utils.ReplaceAllSpacesByUnderlines | src/utils/index.ts:1-8 | Same length; every space becomes `_`, every other character is kept. |
| Utils.NoSpacesLeft | src/utils/index.ts:1-8 | No space survives, and a text without spaces is unchanged. |
| Utils.ReplaceSpacesIdempotent | src/utils/utils.ts:12-19 | Replacing twice is replacing once. |
| Utils.LowerCaseFlagIgnored | src/utils/index.ts:6 | As written, the `lowerCase` flag has no effect. |
| Utils.ReplaceAllSpacesByUnderlinesLowered | src/utils/index.ts:1-8 | Corrected, the result has no spaces and, with the flag, no capitals. Without the flag it equals the as-written result. |
| Utils.LoweringDiffersOnlyOnCapitals | src/utils/index.ts:5-7 | As-written and corrected results agree exactly on texts without capitals. |
| Utils.GetImageThumbnail | src/utils/index.ts:10-19 | The result is the path's directory (everything through its last `/`, or `/` when it has none) followed by the thumbnail name of its last segment. |
| Utils.PathIsDirectoryAndSegment | src/utils/index.ts:14-18 | A path with a `/` is exactly its directory followed by its last segment; a path without one is its own last segment, under the directory `/`. |
| Utils.ThumbnailKeepsDirectory | src/utils/index.ts:10-19 | Everything before the last `/` is kept verbatim; only the last segment is rewritten. |
| Utils.ThumbnailUnderPrefix | src/utils/index.ts:10-19 | The same below any fixed prefix. |
| Utils.ThumbnailOfBareName | src/utils/index.ts:14-18 | A name without `/` gets an empty directory: the result starts with `/`. |
| Utils.ThumbnailNameOfDottedSegment | src/utils/index.ts:15-18 | The new segment is `<first dot-part>_<N>x<N>.<second dot-part>`; later dot-parts are dropped. |
| Utils.ThumbnailNameOfUndottedSegment | src/utils/index.ts:15-18 | A segment without `.` gets the extension text `undefined`. |
| Utils.ThumbnailCarriesMarker | src/utils/index.ts:10-19 | Every size-200 thumbnail path contains `_200x200`. |
| Text.JoinSplit | src/utils/index.ts:14-18 | `join` undoes `split`. |
| Text.SplitJoin | src/utils/index.ts:14-18 | `split` undoes `join` of separator-free parts. |
| Text.ReplaceFirstAbsent | src/services/files.service.ts:111-114 | A `replace` whose pattern does not occur changes nothing. |
| UriEncoding.EncodeURIComponent | src/services/files.service.ts:215 | The encoding never contains `/`, and a name of unreserved characters is unchanged. |
| FilesService.Listing | src/services/files.service.ts:192-232 | The reply as the code computes it, `isSystemOwned` included: `null` without a bucket setting, and a non-null reply is never empty. |
| FilesService.ListEntry | src/services/files.service.ts:204-227 | The `forEach` callback pushes, for one entry, exactly its as-written details when the entry passes the filter (a truthy name longer than the prefix, without `_200x200`), and nothing otherwise. |
| FilesService.GetAllImagesOnBucket | src/services/files.service.ts:192-232 | The loop's result equals `Listing`: `null` without a setting or when no entry survives, else the surviving entries' details in order, with `isSystemOwned` computed from the encoded URL as at line 223. |
| FilesService.KeptSingle | src/services/files.service.ts:205-214 | A single entry is listed exactly when it has a non-empty name longer than the prefix without `_200x200`, and then as its details. |
| FilesService.KeptAppend | src/services/files.service.ts:204-227 | The listing of concatenated entries is the concatenation of their listings: input order is kept. |
| FilesService.KeptLength | src/services/files.service.ts:204-227 | The listing holds exactly one item per entry that passes the filter. |
| FilesService.KeptFromListed | src/services/files.service.ts:204-227 | Every listed item is the as-written details of some entry that passes the filter. |
| FilesService.KeptEmptyIffNoneListed | src/services/files.service.ts:229-231 | The listing is empty exactly when no entry passes the filter. |
| FilesService.EntryUrlsNonEmpty | src/services/files.service.ts:219 | Both URLs of a listed name are non-empty, so the second test never drops a name. |
| FilesService.ThumbnailOfEntry | src/services/files.service.ts:215-216 | An item's thumbnail is `getImageThumbnail(original, 200)`: the same directory with the encoded name rewritten. |
| FilesService.SystemFlagAsWrittenIgnoresName | src/services/files.service.ts:223 | As written, the system flag equals "the project root contains `system/`", whatever the file's name. |
| FilesService.SystemFileNotFlaggedAsWritten | src/services/files.service.ts:215-223 | As written, a file stored under `system/` is not flagged. |
| FilesService.SystemFileFlagged | src/services/files.service.ts:223 | Corrected, a file stored under `system/` is flagged; the item differs from the as-written one only in the flag. |
| FilesService.EntriesDifferOnlyInFlag | src/services/files.service.ts:218-224 | As-written and corrected items agree in both URLs. |
| FilesService.KeptFlaggedAsWritten | src/services/files.service.ts:204-227 | For every bucket and list of entries, the as-written listing is the corrected listing with every flag replaced by whether the project root holds `system/`: same items in the same order, and a flag that says nothing about the item. |
| FilesService.ListingFlaggedAsWritten | src/services/files.service.ts:192-232 | The as-written and corrected replies are `null` together and otherwise differ only in the flags. |
| FilesService.ListingCorrected | src/services/files.service.ts:192-232 | The reply with the flag taken from the name before encoding: `null` without a setting, and never empty when not `null`. |
| FilesService.TemplateText | src/services/files.service.ts:40 | A body field written into a template: its value, or `undefined` / `null`. |
| FilesService.ExtensionOfDottedName | src/services/files.service.ts:37 | The extension is the second dot-part of the upload's name. |
| FilesService.UploadObjectNameShape | src/services/files.service.ts:37-40 | The object name is `users/<id>/<folder>/<id>_<timestamp>.<second dot-part>`. |
| FilesService.UndottedUploadName | src/services/files.service.ts:37 | A name without `.` gets the extension `undefined`. |
| FilesService.UploadFileToStorageAsWritten | src/services/files.service.ts:12-72 | As written, an object is written exactly when the user is found and a bucket is set, under the upload object name. A throwing lookup sends nothing; an unknown user gives 400; no setting gives 500; a stream error gives 400 with its message; a failed `makePublic` sends nothing. A successful upload is answered 200 with an `undefined` body. |
| FilesService.UploadVariantsAgree | src/services/files.service.ts:12-72 | The handler as written and the corrected one store the same object, and their replies differ only for a finished upload by a found user with a bucket set. |
| FilesService.UploadFileToStorage | src/services/files.service.ts:12-72 | An object is written exactly when the user is found and a bucket is set, and then under the upload object name. Otherwise: a throwing lookup sends nothing; an unknown user gives 400 `USER_NOT_FOUND`; no setting gives 500 "No bucket env var found". A stream error gives 400 with its message; a failed `makePublic` sends nothing; success gives 200 with the object's public URL. |
| FilesService.ObjectNameRoundTrip | src/services/files.service.ts:111-114 | The delete name of a stored object's public URL is the object's name. |
| FilesService.ForeignUrlKept | src/services/files.service.ts:111-114 | A URL outside the project is used as the object name unchanged. |
| FilesService.ListedUrlNamesEncodedObject | src/services/files.service.ts:111-114 | The delete name of a listed URL is the encoded object name, which differs from the stored name when the name holds `/`. |
| FilesService.ThumbnailObjectName | src/services/files.service.ts:116-120 | The thumbnail delete name of an object's URL is the object's directory with the last segment rewritten. |
| FilesService.DeleteFile | src/services/files.service.ts:160-175 | `true` exactly when a bucket is set and deleting the derived object succeeds. |
| FilesService.DeleteFileFromStorage | src/services/files.service.ts:74-157 | Missing url or user id gives 400 `MISSING_PROPS`; a throwing lookup sends nothing; an unknown user gives 400 `USER_NOT_FOUND`; a found user without a bucket setting gives 500 "No bucket env var found", with nothing deleted. Deletion is requested exactly when all checks pass. A failed file delete gives 400 with its message. Otherwise 200 `FILE_DELETE_SUCCESS`, with `THUMBNAIL_DELETED` or `THUMBNAIL_NOT_DELETED` by the thumbnail's fate. |
| FilesService.DeleteTargetsUploadedObject | src/services/files.service.ts:74-157 | Deleting an uploaded object by its public URL targets that object and then its thumbnail. |
| ApiKey.VerifyApiKey | src/middlewares/api-key.middleware.ts:8-54 | `next` exactly when a key is configured and the header equals it. No configured key gives 500, a missing header 401 `NO_API_KEY_PROVIDED`, and another key 401 `UNAUTHORIZED`. |
| ApiKey.SettingCheckedFirst | src/middlewares/api-key.middleware.ts:11-27 | Without a configured key, no header changes the 500 reply. |
| ApiKey.OnlyTheKeyPasses | src/middlewares/api-key.middleware.ts:40-53 | With a configured key exactly one header passes; every refusal is 401. |
| Lang.SelectTableAsWritten | src/middlewares/lang.middleware.ts:11-14 | As written, a header naming an own table selects it, and a missing or empty header selects English. So does an unknown header that is not an `Object.prototype` member name. |
| Lang.SelectTable | src/middlewares/lang.middleware.ts:11-14 | Corrected, the table is always English or Portuguese, and Portuguese exactly for `pt`. |
| Lang.PrototypeKeySelectsNoTable | src/constants/messages/index.ts:4-7 | As written, a header such as `constructor` selects an inherited member, not a table; corrected, it selects English. |
| Lang.SelectionsAgreeOffPrototype | src/middlewares/lang.middleware.ts:13-14 | Off the inherited names, the two selections agree. |
| Lang.Request.constructor | src/middlewares/lang.middleware.ts:11 | A fresh request carries its header, no table and no `next` call. |
| Lang.Request.HandleLocalizedMessagesAsWritten | src/middlewares/lang.middleware.ts:6-17 | `messages` is set to the as-written selection, and `next` is called exactly once. |
| Lang.Request.HandleLocalizedMessages | src/middlewares/lang.middleware.ts:6-17 | `messages` is set to a real table, the corrected selection, and `next` is called exactly once. |

## Left out

- HTTP transport, JSON serialisation, logging, Express routing and the
  Mongo queries are not modelled. Their outcomes are parameters.
- The English and Portuguese message texts are not modelled.
  `src/constants/messages/en` and `src/constants/messages/pt` are not part
  of this model. Messages are symbolic codes. `AppErrorsMessages` has no
  `UNAUTHORIZED` member; the model uses a symbolic `Unauthorized`.
- Storage I/O is not modelled. `getFiles` (with its prefix and delimiter),
  the write stream, `makePublic` and the deletes are parameters. So are
  the `moment` time stamp and the upload's original name.
- `deleteAllUserFiles` and the wrappers `getAllUserImages`,
  `getAllButtonsTemplates` and friends only fix the prefix, so they are
  not modelled separately.
- Numbers are unbounded integers. JavaScript's double-precision numbers,
  `NaN` and the result of `parseInt` on text that is not a number are not
  modelled. `parseInt` is the parameter `parsePlan`.
- Strings are sequences of Unicode scalar values. JavaScript measures
  `length` in UTF-16 code units, so the listing's "longer than the prefix"
  test counts characters outside the Basic Multilingual Plane once rather
  than twice.
- UserController.CreateUser: assumes the built-in default plan can be
  read, as the parameter `builtIn`. `src/models/user.models.ts` exports no
  `PlansTypes`, so as written it cannot (`CreateUserAsWritten`). The error
  message the failed read raises depends on the Node release, so it is a
  parameter.
- PageSchema.ComponentRoundTrip: holds for component ids already in the
  store's spelling (24 lower-case hexadecimal digits). Any other ObjectId
  text is stored as the same id and read back in that spelling, which the
  model does not compute.
- ObjectId.ObjectIdText: takes every 12-character string. The driver's
  handling of characters that do not fit in one byte is not modelled.
- Casting between scalar types is not modelled: Mongoose turns a number
  sent to a String path into text, numeric text sent to a Number path into
  a number, and so on. The acceptance predicates count such a value as
  refused. Encoded interface values always hold each path's own type, so
  the lemmas about encodings are unaffected.
- A Mixed path stores any object with any keys. The model's documents
  carry only the keys the interfaces declare there.
- UserModel.FindUserById: compares ids as strings in the store's spelling;
  a key in upper-case hexadecimal, which the store would match, is not
  matched. The cast error's text is the Mongoose 5 wording.
- Page bodies keep only the five fields the handlers inspect (`userId`,
  `name`, `url`, `isPublic`, `views`); the rest passes through untouched.
  The in-place `page.url = …` rewrite is modelled as the value handed to
  the store.
- `deleteUser` delegates to the user service. That service's reply is a
  parameter.
- Utils.ReplaceAllSpacesByUnderlinesLowered: lower-cases only the ASCII
  capitals, because full Unicode case mapping is not modelled.
- PlanGate.PlanFeatures: drops the two timestamps, which no gate reads.
- Lang.PrototypeKeys: lists the standard `Object.prototype` member names;
  a runtime that adds members to the prototype is not modelled.
- `getAllUserPagesByUserId` answers 200 for an empty list (only a `null`
  from the store gives `USER_HAS_NO_PAGES`). The code is followed here.
- `validateTokenByUserId` and the url-existence check run outside the
  handlers' `try` blocks, so a throw there escapes (`Unhandled`) rather
  than giving 500.

## Findings

| source | as written | input that shows it | evidently intended | confidence | as-written member | corrected member |
|---|---|---|---|---|---|---|
| src/controllers/user.controller.ts:54-56 | `doesUserExist` hands the email to `getUserById` | query `userId` alone, naming no stored user, with any user stored: `true`, because `{ _id: undefined }` loses its key; with an email as well, 500 from the ObjectId cast | look the user up by `userId` | high, not executed | UserController.DoesUserExistMissesById | UserController.DoesUserExist |
| src/controllers/user.controller.ts:127-128 | `getUser` hands the email to `getUserById` | query `userId` alone, naming user B, with user A stored first: 200 with A's document | look the user up by `userId` | high, not executed | UserController.GetUserMissesById | UserController.GetUser |
| src/controllers/user.controller.ts:340-345 | `createUser` reads `PlansTypes.PLATINUM`, which `src/models/user.models.ts` does not export (TypeScript refuses the import; a build that goes through reads `undefined`) | any authorised request with an email and both names: 500, and no user is created | start from a plan the model defines | high, not executed | UserController.CreateUserAsWritten | UserController.CreateUser |
| src/services/files.service.ts:215,223 | `isSystemOwned` tests the URL after `encodeURIComponent`, where `/` became `%2F` | object `system/images/a.png` in project `socialbio`: flag `false` | flag files stored under `system/` | high, not executed | FilesService.SystemFileNotFlaggedAsWritten | FilesService.SystemFileFlagged |
| src/services/files.service.ts:61-69 | the `finish` reply sends `image.firebaseUrl`, read from the request's original file object where it was never set | any successful upload: 200 with an `undefined` body | reply with the public URL just built | high, not executed | FilesService.UploadFileToStorageAsWritten | FilesService.UploadFileToStorage |
| src/middlewares/lang.middleware.ts:13 | `ERROR_MESSAGES[lang]` also finds members inherited from `Object.prototype` | header `lang: constructor`: `messages` becomes the `Object` constructor | fall back to English for any name that is not a table | medium, not executed | Lang.PrototypeKeySelectsNoTable | Lang.SelectTable |
| src/utils/index.ts:6 | `result.toLowerCase()` is computed and thrown away | `replaceAllSpacesByUnderlines("A B", true)` gives `A_B` | keep the lower-cased text (`a_b`) | high, not executed | Utils.LowerCaseFlagIgnored | Utils.ReplaceAllSpacesByUnderlinesLowered |
