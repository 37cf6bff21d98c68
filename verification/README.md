# Vaova Hotels — a Dafny model of the client core

This project models the client-side logic of the Vaova Hotels web
application: a Next.js dashboard where hotel owners register and log in,
create, edit and delete hotels (with a logo and a photo gallery kept in a
file store), and where visitors keep a list of favorite hotels in the
browser. The model covers these parts:

- **Favorites** (`favorites.dfy`): the favorites context. It is a class holding the list, with `localStorage` as a write-behind mirror.
- **HotelService** (`hotel_service.dfy`): the hotel service.
  - Storage paths and file names.
  - The batched gallery upload.
  - The assembly of the created and updated documents.
  - Lookup by id and deletion.

  The Firestore collection and the file store are the class `Backend`.
- **RegisterForm** (`register_form.dfy`): the registration form's validation rules. Both regular expressions are written out as predicates.
- **AsyncState** (`async_state.dfy`): which of four views the async-state renderer shows.
- **Session** and **UseSession** (`session.dfy`, `use_session.dfy`): the session kept in `sessionStorage`, and the hook that loads it once.
- **UseHotels** (`use_hotels.dfy`): the query function of the hotels hook, its `enabled` condition and its default list.
- **Auth** (`auth.dfy`): registration, login and logout. This includes:
  - the user-profile store (`src/services/user.ts`);
  - the merge that builds the user object at login;
  - the logout filter over `localStorage` keys.
- **DeleteModal** (`delete_modal.dfy`): the state machine of the hotel deletion dialog.
- **FileUploader** (`file_uploader.dfy`): the staged-file list of the multi-file picker.

Shared vocabulary lives in two modules:

- **Common** (`common.dfy`):
  - `Option`;
  - `Result`, the `{ success, data?, error? }` shape;
  - the JSON `Codec` with its `Faithful` round-trip property;
  - string helpers.
- **Records** (`records.dfy`):
  - the hotel datatypes;
  - JavaScript objects as `map<string, Value>`, so that object spread `{...a, ...b}` is map union `a + b`.

`WebStorage` (`web_storage.dfy`) is the browser's key/value store.

External services are never called; they appear as parameters or state:

- The identity provider's answers, `uuidv4()`, the clock and the download URLs of the file store are parameters or constants of the model.
- Firestore is a sequence of documents.
- The file store is a map from path to file, with a fixed set of rejected paths.

## Model

| member | source | states |
|---|---|---|
| Common.BeforeFirst | src/services/auth.ts:146 | `email.split('@')[0]`: the result is a prefix of the input, has no `@`, and is followed by `@` whenever it is shorter than the input |
| Common.DecimalRoundTrip | src/services/hotel.ts:34 | the decimal rendering of a gallery index reads back as the same number |
| Common.DecimalInjective | src/services/hotel.ts:34 | distinct indexes render to distinct decimal strings |
| Records.RecordToHotel | src/interface/hotels.interface.ts:18-33 | an object is a `Hotel` exactly when every declared field is present with its declared type and `category` is 3, 4 or 5 |
| Records.HotelRecordRoundTrip | src/interface/hotels.interface.ts:2-33 | storing a hotel as an object and reading it back as a `Hotel` gives the same hotel |
| Favorites.WithFavorite | src/contexts/FavoritesContext.tsx:47-54 | after adding, the id is present and the old list is a prefix of the new one. The length grows by one exactly when the id was absent, and then the hotel is last |
| Favorites.WithoutFavorite | src/contexts/FavoritesContext.tsx:56-58 | after removing, no entry has the id, and the kept entries are exactly the old entries with another id |
| Favorites.WithoutAbsentIsIdentity | src/contexts/FavoritesContext.tsx:57 | removing an id that is not present leaves the list unchanged |
| Favorites.WithoutDistributes | src/contexts/FavoritesContext.tsx:57 | removal distributes over concatenation, so the kept entries keep their relative order |
| Favorites.AddIdempotent | src/contexts/FavoritesContext.tsx:49-51 | adding the same hotel twice is the same as adding it once |
| Favorites.AddThenRemove | src/contexts/FavoritesContext.tsx:47-58 | adding a new hotel and then removing its id gives back the original list |
| Favorites.AddKeepsUnique | src/contexts/FavoritesContext.tsx:49-52 | if no two entries share an id before an add, the same holds after it |
| Favorites.RemoveKeepsUnique | src/contexts/FavoritesContext.tsx:57 | if no two entries share an id before a removal, the same holds after it |
| Favorites.Hydrated | src/contexts/FavoritesContext.tsx:27-36 | the initial list is the parsed stored value. A missing, empty or unparsable value gives the empty list |
| Favorites.RestartRestores | src/contexts/FavoritesContext.tsx:27-45 | what the save effect writes, the load effect of the next mount reads back unchanged |
| Favorites.FavoritesProvider.constructor | src/contexts/FavoritesContext.tsx:24-45 | mounting starts from the hydrated list and then writes it back under `favorites`. No other key changes |
| Favorites.FavoritesProvider.Save | src/contexts/FavoritesContext.tsx:39-45 | the stored value becomes the encoding of the whole current list. No other key changes |
| Favorites.FavoritesProvider.AddFavorite | src/contexts/FavoritesContext.tsx:47-54 | the list becomes `WithFavorite` of the old list. Nothing is written when the id was present, and the store stays the mirror of the list |
| Favorites.FavoritesProvider.RemoveFavorite | src/contexts/FavoritesContext.tsx:56-58 | the list becomes `WithoutFavorite` of the old list, and it is written back even when nothing was removed |
| Favorites.FavoritesProvider.IsFavorite | src/contexts/FavoritesContext.tsx:60-62 | holds exactly when some entry has the id |
| Favorites.FavoritesProvider.FavoritesCount | src/contexts/FavoritesContext.tsx:71 | always the length of the list |
| Favorites.UseFavorites | src/contexts/FavoritesContext.tsx:82-88 | returns the provider when inside one, and otherwise fails with the fixed message |
| HotelService.DropWhitespace | src/services/hotel.ts:34 | strips exactly the leading run of `\s` characters, and the result starts with a non-whitespace character or is empty |
| HotelService.Underscored | src/services/hotel.ts:34 | `replace(/\s+/g, '_')` leaves no whitespace and never lengthens the name |
| HotelService.UnderscoredPlain | src/services/hotel.ts:34 | a prefix without whitespace passes through unchanged |
| HotelService.UnderscoredRun | src/services/hotel.ts:34 | a whole run of whitespace, however long, becomes one `_` |
| HotelService.UnderscoredIdempotent | src/services/hotel.ts:34 | applying the replacement twice is the same as applying it once |
| HotelService.DigitsBeforeUnderscore | src/services/hotel.ts:34 | in a `${index}_${name}` tail, the digits before the first `_` are determined by the string |
| HotelService.GalleryPath | src/services/hotel.ts:34-35 | a gallery path lies inside the hotel's folder `hotels/<id>/`, followed by `gallery/` |
| HotelService.LogoPath | src/services/hotel.ts:56-57 | a logo path lies inside the hotel's folder `hotels/<id>/`, followed by `logo/` |
| HotelService.LogoPathNotGalleryPath | src/services/hotel.ts:34-35 | a logo upload never overwrites a gallery image of the same hotel, whatever the file names |
| HotelService.GalleryPathsDistinct | src/services/hotel.ts:34-35 | two files of one gallery upload never get the same path, whatever their names |
| HotelService.GalleryPaths | src/services/hotel.ts:33-35 | there is one path per file, in order, and the k-th file's path is built from the hotel id, `k` and that file's name |
| HotelService.GalleryPathsInjective | src/services/hotel.ts:33-35 | all paths of one upload are pairwise distinct |
| HotelService.UploadedImages | src/services/hotel.ts:33-44 | one image per file, in input order, holding the download URL of that file's path and the file's original name |
| HotelService.WritesKeys | src/services/hotel.ts:33-44 | a batch stores files only at its own paths, and never at a rejected one |
| HotelService.WritesLookup | src/services/hotel.ts:33-44 | with distinct paths, every accepted file is found at its own path |
| HotelService.GalleryWritesStoreEachFile | src/services/hotel.ts:28-49 | every accepted gallery file is stored under its own gallery path, so no file of the batch overwrites another |
| HotelService.GalleryWritesKeys | src/services/hotel.ts:28-49 | a gallery upload writes only at the gallery paths of its files |
| HotelService.LogoWrites | src/services/hotel.ts:54-63 | a rejected or absent logo writes nothing. Otherwise exactly the logo path is written, with the logo file |
| HotelService.MergedGallery | src/services/hotel.ts:147-151 | both branches give the existing images followed by the new ones |
| HotelService.CreatedRecordFields | src/services/hotel.ts:78-96 | the created document has the fresh id, both timestamps, the uploaded gallery and the uploaded logo if any. Every other input field is kept, and no other field is added |
| HotelService.UpdatedFieldsFields | src/services/hotel.ts:131-152 | the update carries the input fields and a new `updatedAt`. The logo is the uploaded one if any; otherwise the input's logo, present exactly when the input has one. When files were given, the gallery is the input gallery followed by the new images; otherwise the input gallery is kept as given |
| HotelService.CreatedFromHotel | src/services/hotel.ts:78-84 | created from a complete hotel with no logo upload, the document reads back as that hotel with only the id, the timestamps and the gallery replaced |
| HotelService.FindById | src/services/hotel.ts:120-127 | finds the first document whose `id` field equals the id, or reports that none has it |
| HotelService.InsertionPoint | src/services/hotel.ts:99 | where `addDoc`'s document goes in key order: after a leading run of documents whose keys all come before its key, and before the first document whose key does not |
| HotelService.InsertKeepsKeyOrder | src/services/hotel.ts:99 | adding a document with a fresh key at its insertion point keeps the collection strictly ordered by key, which is the order unordered queries answer in |
| HotelService.KeyOrderedDistinct | src/services/hotel.ts:174 | in a collection listed in strictly increasing key order, no two documents share a key |
| HotelService.ReplaceKeepsKeyOrder | src/services/hotel.ts:155 | replacing one document's fields under its own key keeps the collection in key order |
| HotelService.RemoveKeepsKeyOrder | src/services/hotel.ts:224 | removing any one document keeps the collection in key order |
| HotelService.Backend.UploadFile | src/services/hotel.ts:13-23 | a rejected path fails with its error and stores nothing. Otherwise the file is stored at the path and its download URL is returned |
| HotelService.Backend.UploadHotelLogo | src/services/hotel.ts:54-63 | `UploadFile` at `hotels/<id>/logo/<id>_logo_<name>` |
| HotelService.Backend.UploadBatch | src/services/hotel.ts:33-44 | every file is attempted. The store gains exactly the accepted writes, and the call succeeds exactly when no path is rejected. Success gives one image per file in order; failure carries the error of some rejected path |
| HotelService.Backend.UploadGalleryImages | src/services/hotel.ts:28-49 | the batch upload at the gallery paths, with the same success condition, images, store update and error |
| HotelService.Backend.UploadAssets | src/services/hotel.ts:87-96 | the logo is uploaded first, and a rejected logo stops before the gallery. The gallery is uploaded only when files were given. The call succeeds exactly when nothing is rejected, and the store gains exactly the accepted writes |
| HotelService.Backend.BuildCreated | src/services/hotel.ts:78-96 | the step-by-step `newHotel` equals `CreatedRecord` of the uploads' results |
| HotelService.Backend.BuildUpdate | src/services/hotel.ts:131-152 | the step-by-step `updatedData` equals `UpdatedFields` of the uploads' results |
| HotelService.Backend.CreateHotel | src/services/hotel.ts:68-106 | the document is added only when every upload succeeded. It is then the `CreatedRecord`, placed at its fresh key's insertion point, and the collection stays in key order (`Valid`). On failure the collection is unchanged and the error is an upload's |
| HotelService.Backend.UpdateHotel | src/services/hotel.ts:111-166 | an unknown id fails with `Hotel no encontrado` and touches nothing. Otherwise the `UpdatedFields` are merged over the first matching document, which keeps its key, so the collection stays in key order (`Valid`). The answer is that document with `id` defaulting to the id |
| HotelService.Backend.GetAllHotels | src/services/hotel.ts:171-186 | always succeeds, with every document's fields in collection order, which every constructor and update of `Backend` keeps as key order (`Valid`) |
| HotelService.Backend.GetHotelById | src/services/hotel.ts:191-208 | fails with `Hotel no encontrado` exactly when no document has the id. Otherwise answers the fields of the first matching document in key order, as `docs[0]` does |
| HotelService.Backend.DeleteHotel | src/services/hotel.ts:213-231 | an unknown id fails and changes nothing. Otherwise exactly the first matching document is removed, and the collection stays in key order (`Valid`) |
| RegisterForm.FieldError | src/components/auth/register-form.tsx:112-153 | an empty value gets the `required` message. Otherwise a value over the maximum gets the max-length message; within it, a value under the minimum gets the min-length message; within both, a mismatch gets the pattern message. There is no error exactly when every present rule passes. Lengths are JavaScript's UTF-16 lengths |
| RegisterForm.Utf16Length | src/components/auth/register-form.tsx:114-115 | JavaScript's `length`: at least the number of characters and at most twice it, with two units for a character outside the Basic Multilingual Plane |
| RegisterForm.EmailMatches | src/components/auth/register-form.tsx:127 | a matching email has the regular expression's shape and at least six characters |
| RegisterForm.EmailMatchesShape | src/components/auth/register-form.tsx:127 | the scanning email test agrees with the regular expression: a local part, one `@`, a domain part, a dot and at least two ASCII letters |
| RegisterForm.EmailTopLevelDomain | src/components/auth/register-form.tsx:127 | `a@b.c` is rejected, because one letter after the final dot is too few, while `a@b.co` is accepted |
| RegisterForm.EmailHasOneAt | src/components/auth/register-form.tsx:127 | an accepted email has exactly one `@` |
| RegisterForm.PasswordPattern | src/components/auth/register-form.tsx:150 | a matching password has only single-unit characters, so its JavaScript length is its character count |
| RegisterForm.DashIsNotSpecial | src/components/auth/register-form.tsx:150 | `-` is allowed in a password but does not count as its special character |
| RegisterForm.Validate | src/components/auth/register-form.tsx:112-177 | name accepted iff its JavaScript length is 2 to 50. Email accepted iff it matches the pattern. Password accepted iff it matches the pattern with at most 20 characters. Role accepted iff non-empty |
| RegisterForm.NameErrors | src/components/auth/register-form.tsx:112-116 | name accepted iff its JavaScript length is 2 to 50, and the message for each failing length |
| RegisterForm.AstralNameLengths | src/components/auth/register-form.tsx:114-115 | a single character outside the Basic Multilingual Plane, such as an emoji, is an acceptable name, while 26 to 50 of them are too long although they are at most 50 characters |
| RegisterForm.EmailErrors | src/components/auth/register-form.tsx:124-130 | email accepted iff it matches. Empty shows "required", any other mismatch shows "not valid" |
| RegisterForm.PasswordErrors | src/components/auth/register-form.tsx:145-153 | password accepted iff it matches the pattern with at most 20 characters; the 6-unit minimum never decides acceptance. The message for each failure, chosen by JavaScript length first |
| RegisterForm.AcceptedPasswordShape | src/components/auth/register-form.tsx:150 | an accepted password has 8 to 20 allowed characters, including a lower-case letter, an upper-case letter, a digit and a special character |
| RegisterForm.EveryPasswordLengthReachable | src/components/auth/register-form.tsx:145-153 | every length from 8 to 20 has an accepted password |
| RegisterForm.DefaultValuesErrors | src/components/auth/register-form.tsx:48-53 | the default values fail name, email and password with "required" and pass the role, which is one of the offered roles |
| AsyncState.BranchOf | src/components/common/AsyncStateRenderer.tsx:53-83 | loading wins over error, error over empty, and the data is shown only when none of them holds |
| AsyncState.Render | src/components/common/AsyncStateRenderer.tsx:42-84 | per state: the custom renderer when given, otherwise the spinner, the error text (default message when none is given) or the empty text; in the ready state, `children` of the data |
| AsyncState.LoadingIgnoresEverythingElse | src/components/common/AsyncStateRenderer.tsx:53-61 | while loading, the error flag, data, emptiness test and other renderers make no difference |
| AsyncState.ErrorIgnoresData | src/components/common/AsyncStateRenderer.tsx:63-71 | on error the data and the emptiness test make no difference |
| AsyncState.ChildrenOnlyWhenReady | src/components/common/AsyncStateRenderer.tsx:73-83 | `children` is rendered in the ready state; without custom renderers no caller node appears in any other state |
| AsyncState.DefaultIsEmptyCases | src/components/common/AsyncStateRenderer.tsx:50 | the default emptiness test holds exactly for `undefined`, `null`, `false`, `0`, `''` and `[]` |
| WebStorage.Storage.GetItem | src/lib/session.ts:18 | `getItem` answers the stored value exactly when the key is present, and `null` otherwise |
| WebStorage.Storage.SetItem | src/contexts/FavoritesContext.tsx:41 | `setItem` stores the value under the key; no other key changes |
| WebStorage.Storage.RemoveItem | src/lib/session.ts:35 | `removeItem` removes the key, and removing an absent key changes nothing |
| Session.SaveUserSession | src/lib/session.ts:6-8 | the serialised user replaces the value under `userSession`. No other key changes |
| Session.ClearUserSession | src/lib/session.ts:34-36 | `userSession` is removed. No other key changes |
| Session.SessionOf | src/lib/session.ts:13-29 | no session without a window, or for a missing, empty or unparsable value. Otherwise the parsed user |
| Session.GetUserSession | src/lib/session.ts:13-29 | a session is found only with a window, and only as the parse of the value under `userSession`. A present non-empty value is parsed |
| Session.NoWindowNoSession | src/lib/session.ts:14-16 | without a window the answer does not depend on the store |
| Session.SaveThenGet | src/lib/session.ts:6-29 | after saving a user, reading the session gives that user |
| Session.ClearThenGet | src/lib/session.ts:18-21 | after clearing there is no session |
| Session.OnlyTheKeyIsRead | src/lib/session.ts:18 | stores that agree on `userSession` give the same session |
| UseSession.SessionHook.constructor | src/hooks/useSession.ts:17-18 | the first render has no session and is loading |
| UseSession.SessionHook.LoadSession | src/hooks/useSession.ts:21-32 | loading ends on every path. A present, non-empty value that parses becomes the session; otherwise the session is unchanged |
| UseSession.SessionHook.ClearSession | src/hooks/useSession.ts:37-40 | the stored key and the session state both go. Loading is untouched |
| UseSession.SessionHook.IsAuthenticated | src/hooks/useSession.ts:46 | holds exactly when there is a session |
| UseSession.Mount | src/hooks/useSession.ts:16-35 | after mounting, loading is over and the session is exactly what `getUserSession()` reads in a browser |
| UseHotels.SessionId | src/hooks/useHotels.ts:21 | `session?.id` when a session with a truthy id exists |
| UseHotels.QueryFn | src/hooks/useHotels.ts:20-31 | no id gives `[]`. Otherwise a successful result gives its data or `[]`, and a failed one throws with a non-empty message |
| UseHotels.NoIdNoCall | src/hooks/useHotels.ts:21-23 | without an id the service's answer makes no difference |
| UseHotels.FailureMessage | src/hooks/useHotels.ts:30 | a failure throws the service's error, or the fixed message when that is missing or empty |
| UseHotels.Enabled | src/hooks/useHotels.ts:33 | the query is enabled exactly for an authenticated user with a session id |
| UseHotels.EnabledIffCalls | src/hooks/useHotels.ts:21-33 | with `isAuthenticated` as the session hook computes it, the query runs exactly when the service would be consulted |
| UseHotels.HotelsOf | src/hooks/useHotels.ts:37 | the hotels are the data, or `[]` when there is none |
| Auth.Or | src/services/auth.ts:71-74 | JavaScript's or-default on an optional string: the string when present and non-empty, otherwise the fallback |
| Auth.NewProfile | src/services/user.ts:37-43 | the written profile has exactly `name`, `email`, `role`, `avatar` and `createdAt`, with the given name, email and role, and no `id` |
| Auth.UserStore.GetUserDocument | src/services/user.ts:14-27 | a read error is returned as is, and a missing document fails with "not found". A found document comes back with `id` set to the user id, overriding any stored `id`, and every other field unchanged |
| Auth.UserStore.CreateUserDocument | src/services/user.ts:35-49 | a write error leaves the store unchanged. Otherwise the profile becomes name, email, role, avatar and the creation time |
| Auth.ProfileField | src/services/auth.ts:146-148 | the profile's field when the read succeeded and the field is truthy, otherwise the fallback |
| Auth.EmailFallbackName | src/services/auth.ts:146 | the fallback name is the part of the typed email before the first `@` |
| Auth.LoginUserData | src/services/auth.ts:109-117 | the user object has `id`, `email`, `name`, `role` and `createdAt`, and every field of a found profile is taken as stored |
| Auth.LoginUserDataFields | src/services/auth.ts:143-151 | the user object has exactly the five `User` fields plus the profile's. A stored `name` or `role` wins even when falsy, because the spread comes last; the provider's name or role `user` is used only when the profile lacks the field |
| Auth.LoginWithoutProfile | src/services/auth.ts:109-117 | without a profile: the provider's email or `''`, its display name or the fallback, role `user` and the current time |
| Auth.LoginIdIsUid | src/services/auth.ts:109-117 | when the profile comes from the store, the user object's `id` is the provider's uid |
| Auth.RegisterWithEmailAndPassword | src/services/auth.ts:29-56 | a sign-up error is returned as is, and a failed profile write fails without touching the session. Otherwise the profile is written with an empty avatar, and the session is saved and the call succeeds exactly when the read-back succeeds, answering the profile with its id |
| Auth.RegisterWithGoogle | src/services/auth.ts:62-93 | an existing profile is left as it is, then answered and saved as the session. A failed first lookup writes a profile from the provider's data with role `user`; then the session is saved and the call succeeds only if the final read succeeds. A failed write answers `Error creating user document`; a failed final read answers `Error getting user data` and leaves the session as it was |
| Auth.LoginWithEmailAndPassword | src/services/auth.ts:134-160 | a sign-in error is returned as is. Otherwise the merged user object, with the email-prefix fallback name, is answered and saved as the session |
| Auth.LoginWithGoogle | src/services/auth.ts:99-126 | as the email login, with `''` as the fallback name |
| Auth.IsFirebaseKey | src/services/auth.ts:180 | every key the filter selects mentions `firebase` and has at least nine characters |
| Auth.FirebaseKeys | src/services/auth.ts:179-181 | exactly the keys that start with `firebase:` or contain `firebaseLocalStorageDb` |
| Auth.Logout | src/services/auth.ts:168-192 | a sign-out error clears nothing. Without a window, clearing the session throws and nothing is removed. Otherwise `userSession` is removed and `localStorage` loses exactly its Firebase keys |
| Auth.LogoutKeepsOtherKeys | src/services/auth.ts:178-185 | every other `localStorage` key stays, with its value |
| Auth.FirebaseKeyCases | src/services/auth.ts:180 | keys starting with `firebase:` or containing the database name count; a key with `firebase:` elsewhere does not |
| DeleteModal.HotelDeleteModal.constructor | src/components/dashboard/hotels/hotel-delete-modal.tsx:17-18 | the dialog starts idle, with no error |
| DeleteModal.HotelDeleteModal.HandleDelete | src/components/dashboard/hotels/hotel-delete-modal.tsx:20-49 | a missing id only sets its message, with no service call. Otherwise the service is called while loading and with no error shown. Success closes the dialog and then notifies if a callback was given; failure shows the prefixed service error. Loading ends on both paths |
| FileUploader.Staged | src/components/dashboard/hotels/file-uploader-multiple.tsx:18-25 | one staged file per accepted file, in order, each with its own preview URL |
| FileUploader.WithoutName | src/components/dashboard/hotels/file-uploader-multiple.tsx:43 | the filtered list is never longer than the staged list |
| FileUploader.WithoutNameMembers | src/components/dashboard/hotels/file-uploader-multiple.tsx:43 | the kept files are exactly the staged files with another name |
| FileUploader.WithoutNameAppend | src/components/dashboard/hotels/file-uploader-multiple.tsx:43 | the filter distributes over concatenation, so the kept files keep their order |
| FileUploader.WithoutAbsentName | src/components/dashboard/hotels/file-uploader-multiple.tsx:43 | removing a name no file has leaves the list unchanged |
| FileUploader.WithoutNameIdempotent | src/components/dashboard/hotels/file-uploader-multiple.tsx:41-45 | removing the same name twice is removing it once |
| FileUploader.WithoutOnlyHolder | src/components/dashboard/hotels/file-uploader-multiple.tsx:41-45 | when only the k-th file has the name, removal takes out exactly that file |
| FileUploader.DropThenRemove | src/components/dashboard/hotels/file-uploader-multiple.tsx:18-45 | dropping files and then removing one by its unique name leaves the others, with their previews, in drop order |
| FileUploader.StagedWithout | src/components/dashboard/hotels/file-uploader-multiple.tsx:18-25 | staging all files but the k-th is the staged list without its k-th entry |
| FileUploader.ShowsImagePreview | src/components/dashboard/hotels/file-uploader-multiple.tsx:30 | a preview needs a MIME type starting with `i` of at least five characters, and every `image/…` type gets one |
| FileUploader.ImagePreviewCases | src/components/dashboard/hotels/file-uploader-multiple.tsx:30 | every `image/…` type gets a preview; a type not starting with `i` never does |
| FileUploader.Uploader.constructor | src/components/dashboard/hotels/file-uploader-multiple.tsx:15 | nothing is staged at first |
| FileUploader.Uploader.OnDrop | src/components/dashboard/hotels/file-uploader-multiple.tsx:18-25 | the staged list becomes exactly the accepted files, replacing rather than appending |
| FileUploader.Uploader.HandleRemoveFile | src/components/dashboard/hotels/file-uploader-multiple.tsx:41-45 | every staged file with that name goes, and the rest stay |
| FileUploader.Uploader.HandleRemoveAllFiles | src/components/dashboard/hotels/file-uploader-multiple.tsx:73-75 | the staged list becomes empty |
| FileUploader.Uploader.ShowsList | src/components/dashboard/hotels/file-uploader-multiple.tsx:96 | the list rather than the placeholder is shown exactly when something is staged |

## Left out

- Rendering, styling, toasts, console logging and navigation are not modelled. The same goes for the form's visibility and loading toggles.
- `JSON.stringify`/`JSON.parse` are an abstract `Codec`. Properties that need the round trip assume it as `Faithful` (parsing a stringified value gives it back, and the text is never empty). A stored value that parses to something other than the expected shape is not modelled.
- Numbers are exact reals. NaN and floating-point rounding are not modelled, and neither is the uploader's kilobyte size label, which is floating-point formatting.
- Concurrency is not modelled:
  - React Query caching, retries and refetching;
  - effect scheduling;
  - the interleaving of the parallel uploads.
- HotelService.Backend.UploadBatch: the uploads run one after another. The error is that of some rejected path, not necessarily the first rejection in time.
- Firestore faults other than a rejected upload path are not modelled: a failing query, `addDoc`, `updateDoc` or `getDoc`. Only upload rejections and a missing hotel fail in the hotel service.
- HotelService.Backend.CreateHotel: the two `new Date()` calls are one `now` parameter. `uuidv4()` and the generated document key are parameters; that the key is fresh is a precondition of `CreateHotel`, since Firestore's generated keys do not collide in practice. Likewise the `Backend` constructor requires a collection in key order, as Firestore always keeps it.
- HotelService.Backend.UpdateHotel: the Firestore read-back of the updated document is the merged document itself. The answer's `id` comes first and is overridden by a stored `id`, as in the source.
- The functions `CreatedRecord` and `UpdatedFields` have no contract of their own. Their field-level facts are stated by the lemmas `CreatedRecordFields` and `UpdatedFieldsFields`. Likewise, the facts about `Writes` are stated by `WritesKeys` and `WritesLookup`.
- `UploadAssets`, `BuildCreated` and `BuildUpdate` factor out code that `createHotel` and `updateHotel` share or assemble step by step. They do not correspond to separate functions in the source.
- Callers of `useHotels` pass `'all'`/`'single'`, but the hook takes no arguments, so there are no modes to model. `getHotelsByUserId`, which the hook imports, is not part of this model (it is not defined in the hotel service), so it is a parameter.
- UseHotels.QueryFn: a non-string `error` (which `new Error` would convert to text) is not modelled; the error is an optional string.
- The views read `rooms.*.enabled` and `active`, which the `Hotel` interface does not declare, so they are not modelled.
- Not modelled at all:
  - the hotel form modal (its submit only logs);
  - the AI description call;
  - the hotels table (sample data);
  - the table filter.
- `src/interface/user.interface.ts` is not part of this model. A user is a `Record` carrying the fields the code writes.
- Auth.UserStore: read and write faults are fixed per user id, so a read that fails once fails again within the same call.
- Auth: a thrown error is returned as its message (`Error creating user document`), not as an `Error` object. Sign-in errors are the provider's message.
- Auth.LoginWithEmailAndPassword, Auth.LoginWithGoogle and the register flows run in a browser. Saving the session where there is no window, which would throw, is not modelled for them; it is modelled for `logout`.
- Auth.Logout: `Object.keys(localStorage)` is visited as a set, since the order of removal does not affect the result.
- DeleteModal.HotelDeleteModal.HandleDelete: the `catch` branch is reachable only when the service throws, and the modelled service never does, so it is not modelled. The `onClose` and `onSuccess` callbacks are recorded as events and never throw.
- FileUploader.Uploader.OnDrop: `Object.assign` mutates the dropped `File` objects in place; the model builds new staged values, so aliasing is not captured. The object URLs are a parameter, one per file.

Three behaviours of the code that the model keeps as written:

- `getAllHotels` returns the documents in key order. It does not put hotels with images first, and it does not filter by category or status.
- `logout` clears nothing when sign-out fails.
- `registerWithGoogle` writes a fresh `user` profile whenever the first lookup fails for any reason, not only when the profile is absent.
