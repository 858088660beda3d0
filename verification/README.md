# Marketplace client: screen logic in Dafny

This project models the logic inside the screens of a React Native marketplace
client (amazonica project). Requests, storage and device pickers are treated as
inputs; what remains is stated and proved in Dafny:

- **Chat.** The room key two users share, the chat log, and the send guard.
  History replaces the log and each socket frame extends it.
- **Conversations list.** A per-partner preview of the room's last message, where one partner's failed history request does not affect the others, plus a username search.
- **Home feed.** The favourites toggle, the delete dialog's reason guard, and each card's first image and author.
- **User management.** The seller-status switch, the exclusion of the viewer and administrators, the search, and the row disabled while its request is in flight.
- **Moderation queue.** Product normalisation (`id`/`ID`, images sent as JSON text), the two shapes the list can come in, and the title search.
- **Add product.** Picking capped at ten pictures, removal by index, the completeness check, and the multipart body with `photo<n>.jpg` names.
- **Profile editor and avatar component.** The avatar's file name, extension and MIME type, the `file://` gate, the username check, and initials versus picture.
- **Splash typewriter.** A step machine that types the phrase, erases it and hands over after 38 steps.
- **Session.** User, token, loading flag and stored token across start-up, login and logout.

Modules:

- `Text`: the JavaScript string operations the screens use.
- `Lists`: `filter`, `slice` and `splice`.
- `Catalog`: the `images` field.
- `FormData`: multipart entries.
- Screen modules: `Chat`, `Messages`, `Home`, `UserManagement`, `Moderation`, `AddProduct`, `EditProfile`, `Avatar`, `Splash`, `Auth`.

Screens whose fields change step by step are classes whose methods state their new state. The pure derivations are functions, and lemmas relate them.

Facts about the chat screen that the model keeps as the code has them:

- Live messages are not buffered until the history arrives: an array history reply overwrites the log (screens/ChatScreen.js:31), so frames that arrived before it are lost. `Chat.LogIsLastSnapshotThenLive` and `Chat.LiveBeforeHistoryIsLost` prove this.
- The screen keeps no connection state of its own: the socket's `readyState` is read when sending (screens/ChatScreen.js:71), and the error and close handlers only log.
- A missing or empty username is not an error: the local name falls back to `"anonymous"` (screens/ChatScreen.js:15).
- A non-array history reply leaves the log as it is; it does not empty it.

## Model

| member | source | states |
|---|---|---|
| Text.Trim | screens/ChatScreen.js:71 | `trim()` gives an infix of its input with only whitespace before and after it and no whitespace at either end |
| Text.TrimIsUnique | screens/ChatScreen.js:71 | any infix with only whitespace around it and none at its ends is the trimmed string, so the contract of `Trim` fixes its result |
| Text.IsBlank | screens/HomeScreen.js:75 | `!s.trim()` holds exactly when every character of `s` is whitespace |
| Text.Includes | screens/MessagesScreen.js:71 | the scan `includes` performs is equivalent to the needle occurring at some index |
| Text.ToLower | screens/MessagesScreen.js:71 | lower-casing keeps the length and maps each character; no upper-case letter is left |
| Text.ToUpper | components/UserAvatar.js:10 | upper-casing keeps the length and maps each character; no lower-case letter is left |
| Text.ToLowerIdempotent | screens/MessagesScreen.js:71 | lower-casing twice equals lower-casing once |
| Text.EmptyQueryMatches | screens/MessagesScreen.js:70-72 | the empty search text matches every name |
| Text.MatchesQueryIgnoresQueryCase | screens/MessagesScreen.js:71 | the search gives the same answer whatever the case of the query |
| Text.MatchesQuery | screens/MessagesScreen.js:71 | the search matches exactly when the lower-cased query occurs in the lower-cased name |
| Text.AfterLast | screens/EditProfileScreen.js:82 | `split(sep).pop()` is a separator-free suffix preceded by the separator, or the whole string |
| Text.AfterLastOfSplit | screens/EditProfileScreen.js:82 | the last segment of `head + sep + tail` is `tail` when `tail` has no separator |
| Text.AfterLastNoSeparator | screens/EditProfileScreen.js:83 | a string without the separator is its own last segment |
| Text.StartsWith | screens/EditProfileScreen.js:81 | `startsWith` holds exactly when the prefix is no longer than the string and agrees with it character by character |
| Text.Decimal | screens/AddProductScreen.js:75 | the rendering of an index is a non-empty string of digits, "0" only for 0 and otherwise without a leading zero, whose value read back is the index |
| Text.DecimalInjective | screens/AddProductScreen.js:75 | different indices render differently |
| Text.LexLe | screens/ChatScreen.js:18 | `a` sorts no later than `b` exactly when `a` is a prefix of `b` or has the smaller character at the first index where they differ |
| Text.LexTotal | screens/ChatScreen.js:18 | the string order `sort()` uses is total |
| Text.LexAntisymmetric | screens/ChatScreen.js:18 | two strings ordered both ways are equal |
| Lists.Filter | screens/HomeScreen.js:64 | `filter` keeps exactly the elements that pass, in order (a subsequence), and is no longer than its input |
| Lists.FilterCounts | screens/HomeScreen.js:64 | `filter` keeps each passing element as often as it occurs and drops the others |
| Lists.FilterKeepsAll | screens/MessagesScreen.js:70-72 | a filter every element passes returns the list unchanged |
| Lists.FilterConcat | screens/HomeScreen.js:64 | filtering a concatenation filters each part |
| Lists.Take | screens/AddProductScreen.js:53 | `slice(0, n)` is the first `min(n, length)` elements |
| Lists.RemoveAt | screens/AddProductScreen.js:180-182 | `splice(i, 1)` on a copy drops exactly the element at `i`, keeps the others in order, and changes nothing for an index past the end |
| Catalog.DecodeImages | screens/HomeScreen.js:47 | an `images` field sent as JSON text is parsed; an array or a missing field is kept |
| Catalog.DecodeImagesIdempotent | screens/ProductModerationScreen.js:29 | decoding an already decoded field changes nothing |
| Chat.LocalName | screens/ChatScreen.js:15 | the local name is the username, or "anonymous" with no user or an empty username; never empty |
| Chat.RoomId | screens/ChatScreen.js:18 | the key is one name, "_", then the other; the partner comes first only when it sorts no later than the local name |
| Chat.RoomIdSymmetric | screens/ChatScreen.js:18 | both participants derive the same room key |
| Chat.RoomIdSorted | screens/ChatScreen.js:18 | the key is the name that sorts first, "_", then the other |
| Chat.RoomIdInjective | screens/ChatScreen.js:18 | for names without "_", equal keys come from the same pair of names |
| Chat.RoomIdCollision | screens/ChatScreen.js:18 | with "_" inside names, the pairs ("a_b","c") and ("a","b_c") share the key "a_b_c" |
| Chat.Outgoing | screens/ChatScreen.js:70-75 | something is sent exactly when the input is not all whitespace and the socket is open; the payload is the trimmed input, i.e. the input without its leading and trailing whitespace |
| Chat.ChatRoom.constructor | screens/ChatScreen.js:13-21 | a chat view starts with its local name and room key, an empty log and input, and loading |
| Chat.ChatRoom.ApplyHistory | screens/ChatScreen.js:30-39 | an array reply replaces the log, anything else leaves it; loading ends either way |
| Chat.ChatRoom.Receive | screens/ChatScreen.js:52-55 | a decoded frame is appended at the end of the log, earlier messages unchanged |
| Chat.ChatRoom.EditInput | screens/ChatScreen.js:112 | typing sets the input text |
| Chat.ChatRoom.SendMessage | screens/ChatScreen.js:70-75 | a frame is sent exactly when the old input is not all whitespace and the socket is open; it is the trimmed input, and the input is cleared; otherwise nothing changes; the log is never touched |
| Chat.ChatRoom.IsOwn | screens/ChatScreen.js:78 | a message is the user's own exactly when its `user` field equals the local name |
| Chat.SplitAtFirstSeparator | screens/ChatScreen.js:18 | when the first name has no "_", a key cut at its first "_" gives back both names |
| Chat.LogAfter | screens/ChatScreen.js:30-55 | the log after a sequence of history replies and frames; every message in it was delivered by one of those events |
| Chat.LiveMessages | screens/ChatScreen.js:52-55 | the messages of the decoded frames in arrival order; each came from a frame among the events |
| Chat.LogWithoutSnapshot | screens/ChatScreen.js:31 | without an array history reply the log is every live message in arrival order |
| Chat.LogIsLastSnapshotThenLive | screens/ChatScreen.js:31 | the log is the last array history reply followed by the frames after it |
| Chat.LiveBeforeHistoryIsLost | screens/ChatScreen.js:31 | a frame received before the history reply is not in the log afterwards |
| Chat.FailedHistoryThenLive | screens/ChatScreen.js:35-38 | after a failed history request, one frame makes the whole log |
| Chat.Replay | screens/ChatScreen.js:25-55 | driving a chat view through any sequence of history replies and frames yields the log the sequence specifies |
| Messages.LastMessage | screens/MessagesScreen.js:33 | the preview is the last history element's text, or "" for an empty, non-array or failed history or a missing text |
| Messages.Summaries | screens/MessagesScreen.js:27-39 | one entry per partner, same length and order, each keeping its partner |
| Messages.PreviewUsesChatRoom | screens/MessagesScreen.js:29 | the preview is read from the same room key the chat screen computes, from either side |
| Messages.FailureIsIsolated | screens/MessagesScreen.js:35-37 | a failing history request blanks that room's previews and changes no other entry |
| Messages.InitialDirectory | screens/MessagesScreen.js:15-17 | the list starts with no partners, loading |
| Messages.LoadDirectory | screens/MessagesScreen.js:19-46 | with no username nothing changes; otherwise a list replaces the partners with their summaries, a failure keeps them, loading ends |
| Messages.NoUserStaysLoading | screens/MessagesScreen.js:19-20 | without a logged-in username the list stays empty and keeps loading |
| Messages.LoadedListFollowsPartners | screens/MessagesScreen.js:27-41 | a loaded list is each partner in order with its room's preview |
| Messages.Visible | screens/MessagesScreen.js:70-72 | the shown entries are the order-preserving subsequence whose username matches the search, ignoring case, each kept as often as it occurs |
| Messages.EmptySearchShowsAll | screens/MessagesScreen.js:70-72 | an empty search shows the whole list |
| Messages.PreviewText | screens/MessagesScreen.js:65 | an empty preview is shown as "Начните диалог"; a non-empty one as itself |
| Messages.EmptyHistoryShowsPlaceholder | screens/MessagesScreen.js:33-65 | a partner whose history is empty, not an array or failed is shown with the placeholder |
| Home.ToggledFavorites | screens/HomeScreen.js:62-66 | the toggle flips membership of the id, appends an absent id at the end, removes a present one keeping the rest in order, and leaves other ids' membership alone |
| Home.ToggleKeepsOtherCounts | screens/HomeScreen.js:64 | removing an id keeps every other id exactly as often as before |
| Home.ToggleTwiceAbsent | screens/HomeScreen.js:62-66 | toggling an absent id twice restores the list |
| Home.ToggleTwicePresent | screens/HomeScreen.js:64 | toggling a present id twice moves it to the end, once |
| Home.ToggleTwiceReorders | screens/HomeScreen.js:64 | [1, 2] toggled twice at 1 is [2, 1]: the restore holds only for absent ids |
| Home.ToggleKeepsNoDuplicates | screens/HomeScreen.js:63-65 | the toggle keeps a duplicate-free list duplicate-free |
| Home.FirstImage | screens/HomeScreen.js:105 | the card's image is the first URL, "" when there is none, and the first character of a still-encoded JSON text |
| Home.AuthorName | screens/HomeScreen.js:107 | the author is the username when it is present and non-empty, otherwise "Автор неизвестен" |
| Home.DecodeListings | screens/HomeScreen.js:45-48 | the feed keeps its products in order, each with its images decoded |
| Home.HomeScreen.constructor | screens/HomeScreen.js:24-29 | the feed starts empty and loading, with no favourites and the dialog closed |
| Home.HomeScreen.ApplyProducts | screens/HomeScreen.js:38-56 | only an ok response replaces the products; loading ends either way |
| Home.HomeScreen.ToggleFavorite | screens/HomeScreen.js:62-66 | the favourites become the toggled list: the id's heart flips and every other id's stays |
| Home.HomeScreen.IsFavorite | screens/HomeScreen.js:106 | the heart is filled exactly when the id occurs in the favourites |
| Home.HomeScreen.OpenDeleteModal | screens/HomeScreen.js:68-72 | the dialog opens for the product with an empty reason |
| Home.HomeScreen.EditReason | screens/HomeScreen.js:176 | typing sets the reason |
| Home.HomeScreen.CancelDelete | screens/HomeScreen.js:180-183 | cancelling closes the dialog and clears the reason |
| Home.HomeScreen.ConfirmDelete | screens/HomeScreen.js:74-88 | no request exactly when the reason is all whitespace; otherwise the request carries the product and the untrimmed reason |
| Home.HomeScreen.DeleteSettled | screens/HomeScreen.js:92-101 | only a successful delete refetches the feed and closes the dialog |
| UserManagement.FlipRole | screens/UserManagementScreen.js:47 | "seller" becomes "registered" and every other role becomes "seller" |
| UserManagement.FlipRoleInvolution | screens/UserManagementScreen.js:47 | on "seller" and "registered" flipping twice is no change |
| UserManagement.FlipRoleNotInvolution | screens/UserManagementScreen.js:47 | an "admin" role flipped twice is "registered" |
| UserManagement.Manageable | screens/UserManagementScreen.js:33 | the list keeps exactly the users who are neither the viewer nor an admin, in order and each as often as it occurs; with no viewer it throws unless the list is empty |
| UserManagement.SearchUsers | screens/UserManagementScreen.js:75-77 | the shown users are the order-preserving subsequence whose username matches the search, ignoring case, each kept as often as it occurs |
| UserManagement.EmptySearchShowsAll | screens/UserManagementScreen.js:75-77 | an empty search shows every user |
| UserManagement.SearchIdempotent | screens/UserManagementScreen.js:75-77 | searching the search result again with the same text changes nothing |
| UserManagement.SwitchLabel | screens/UserManagementScreen.js:100 | the switch reads "Снять статус" exactly for a seller and "Выдать статус" for every other role |
| UserManagement.UserManagementScreen.constructor | screens/UserManagementScreen.js:18-23 | the screen starts empty and loading with nobody being updated |
| UserManagement.UserManagementScreen.FetchSettled | screens/UserManagementScreen.js:26-44 | a filtered ok list replaces both lists; anything else keeps them; loading ends; only manageable users are ever listed |
| UserManagement.UserManagementScreen.HandleSearch | screens/UserManagementScreen.js:73-79 | the search text is kept and the shown list is the search over all users |
| UserManagement.UserManagementScreen.StartToggleRole | screens/UserManagementScreen.js:46-58 | the request asks for the flipped role and the user becomes the one being updated |
| UserManagement.UserManagementScreen.FinishToggleRole | screens/UserManagementScreen.js:61-70 | whatever the outcome nobody is being updated afterwards; only success refetches |
| UserManagement.UserManagementScreen.SwitchDisabled | screens/UserManagementScreen.js:94 | a row's switch is disabled exactly when its id is the one being updated |
| UserManagement.ToggleRoleOnce | screens/UserManagementScreen.js:46-70 | one press requests the flipped role for that user; afterwards, whatever the outcome, no row is disabled and the lists are unchanged |
| Moderation.Normalize | screens/ProductModerationScreen.js:26-30 | `id` becomes `id` when truthy, else `ID`; `images` becomes the decoded field; every other field is kept |
| Moderation.NormalizeIdempotent | screens/ProductModerationScreen.js:26-30 | normalising twice equals normalising once |
| Moderation.RawList | screens/ProductModerationScreen.js:39 | the list is the body when it is an array, else its `products` field |
| Moderation.NormalizeAll | screens/ProductModerationScreen.js:40 | the list keeps its length and order, each product normalised |
| Moderation.SearchByTitle | screens/ProductModerationScreen.js:84-86 | the shown products are the order-preserving subsequence whose title matches the search, ignoring case, each kept as often as it occurs |
| Moderation.EmptySearchShowsAll | screens/ProductModerationScreen.js:84-86 | an empty search shows every product |
| Moderation.GenderLabel | screens/ProductModerationScreen.js:106 | the label is "Мужское" exactly for "male", else "Женское" |
| Moderation.ShouldReload | screens/ProductModerationScreen.js:60-75 | the queue reloads exactly on an ok response, whether or not its body is JSON |
| Moderation.ModerationScreen.constructor | screens/ProductModerationScreen.js:20-23 | the screen starts empty and loading |
| Moderation.ModerationScreen.LoadSettled | screens/ProductModerationScreen.js:32-48 | when a list can be read, both lists become it normalised; otherwise they stay; loading ends |
| Moderation.ModerationScreen.HandleSearch | screens/ProductModerationScreen.js:82-88 | the search text is kept and the shown list is the title search over all products |
| AddProduct.AfterPick | screens/AddProductScreen.js:52-54 | a cancelled pick keeps the pictures; otherwise they are old ++ picked cut to ten |
| AddProduct.PickKeepsPrefix | screens/AddProductScreen.js:53 | the first min(old length, 10) pictures are unchanged by a pick |
| AddProduct.PickAppendsWhatFits | screens/AddProductScreen.js:53 | below the cap, the picked pictures follow the old ones, in order, as many as fit |
| AddProduct.Incomplete | screens/AddProductScreen.js:58 | the form is incomplete exactly when title, description or price is all whitespace or there is no picture |
| AddProduct.PhotoName | screens/AddProductScreen.js:75 | a picture's name is "photo", then digits that read back as its index, then ".jpg"; only index 0 starts with a zero |
| AddProduct.PhotoNamesDistinct | screens/AddProductScreen.js:75 | different pictures get different names |
| AddProduct.Header | screens/AddProductScreen.js:63-70 | the body starts with seven text fields in order: title, description, price, location, gender, size, and category "clothing" |
| AddProduct.ImageEntry | screens/AddProductScreen.js:73-77 | a picture's entry is an "images" file with its URI, the name for its index and type "image/jpeg" |
| AddProduct.FormFor | screens/AddProductScreen.js:63-78 | the body is the seven fields, then picture n as file `photo<n>.jpg` at position 7 + n |
| AddProduct.FormFilesAreDistinctJpegs | screens/AddProductScreen.js:72-78 | each file entry carries its picture's URI and type "image/jpeg", and no two share a name |
| AddProduct.BuildForm | screens/AddProductScreen.js:63-78 | appending the fields and then each picture in a loop builds exactly that body |
| AddProduct.ProductForm.constructor | screens/AddProductScreen.js:32-39 | the form starts empty with "Москва", "male", "M", no pictures, not loading |
| AddProduct.ProductForm.PickImages | screens/AddProductScreen.js:45-55 | the pictures become the pick's result and never exceed ten |
| AddProduct.ProductForm.RemoveImage | screens/AddProductScreen.js:180-182 | the pictures lose the one at the index and stay within ten |
| AddProduct.ProductForm.Submit | screens/AddProductScreen.js:57-80 | an incomplete form sends nothing and changes nothing; otherwise the body is sent and loading starts |
| AddProduct.ProductForm.SubmitSettled | screens/AddProductScreen.js:101-103 | loading ends whatever the outcome |
| Avatar.InitialsOf | components/UserAvatar.js:10 | initials are the first two characters upper-cased, or "??" for a missing or empty username; one or two characters |
| Avatar.InitialsAreUpperCase | components/UserAvatar.js:10 | initials contain no lower-case letter |
| Avatar.InitialsOfPrefix | components/UserAvatar.js:10 | only the first two characters matter |
| Avatar.Render | components/UserAvatar.js:5-15 | a present avatar always wins over initials; width and height are the size, 130 by default |
| EditProfile.FileName | screens/EditProfileScreen.js:82 | the file name is the part after the last "/", or "avatar.jpg" when that is empty; it contains no "/" |
| EditProfile.FileNameOfPath | screens/EditProfileScreen.js:82 | the file name of `dir/name` is `name` |
| EditProfile.FileNameOfDirectory | screens/EditProfileScreen.js:82 | a path ending in "/" gets "avatar.jpg" |
| EditProfile.Extension | screens/EditProfileScreen.js:83 | the extension is the lower-cased part after the last ".", or "jpg" when that is empty |
| EditProfile.ExtensionOfName | screens/EditProfileScreen.js:83 | the extension of `stem.ext` is `ext` lower-cased |
| EditProfile.ExtensionWithoutDot | screens/EditProfileScreen.js:83 | a name without a dot is its own extension, lower-cased |
| EditProfile.MimeType | screens/EditProfileScreen.js:84 | the type is "image/jpeg" exactly for "jpg" and "jpeg", otherwise "image/" + ext |
| EditProfile.AttachesAvatar | screens/EditProfileScreen.js:81 | the avatar is uploaded exactly when it is present and its first seven characters are "file://" |
| EditProfile.AvatarEntry | screens/EditProfileScreen.js:86-90 | the avatar entry carries the URI, its file name and the MIME type of its extension |
| EditProfile.SaveForm | screens/EditProfileScreen.js:76-91 | the body is username, region, bio, plus the avatar entry exactly for a local `file://` avatar |
| EditProfile.ServerAvatar | screens/EditProfileScreen.js:36 | a loaded avatar path becomes the server URL plus the path; none when missing or empty |
| EditProfile.ServerAvatarNotUploaded | screens/EditProfileScreen.js:81 | an avatar loaded from the server is never attached to the save |
| EditProfile.LocalDirectoryFile | screens/EditProfileScreen.js:81 | a file under a `file://` directory is attached |
| EditProfile.FileNameInDirectory | screens/EditProfileScreen.js:82 | a file in a directory given with its trailing "/" is named by its own name |
| EditProfile.PickedAvatarUpload | screens/EditProfileScreen.js:56-61 | a picked avatar copied into a local cache is attached under the picked file's own name |
| EditProfile.PlaceholderView | screens/EditProfileScreen.js:124-142 | the editor shows the avatar, else the initials of a non-empty username, else "??" |
| EditProfile.PlaceholderAgreesWithComponent | screens/EditProfileScreen.js:124-142 | the editor's avatar agrees with the avatar component for every avatar and username |
| EditProfile.ProfileEditor.constructor | screens/EditProfileScreen.js:15-19 | the editor starts with empty fields, no avatar, not loading |
| EditProfile.ProfileEditor.ApplyProfile | screens/EditProfileScreen.js:31-39 | an ok profile fills the fields, missing ones as ""; anything else keeps them |
| EditProfile.ProfileEditor.PickAvatar | screens/EditProfileScreen.js:47-68 | a successful pick and copy sets the avatar to the cache path; otherwise it stays |
| EditProfile.ProfileEditor.Save | screens/EditProfileScreen.js:70-97 | nothing is sent exactly when the username is all whitespace; otherwise the body is sent and loading starts |
| EditProfile.ProfileEditor.SaveSettled | screens/EditProfileScreen.js:119-121 | loading ends whatever the outcome |
| EditProfile.ProfileEditor.RenderAvatar | screens/EditProfileScreen.js:124-142 | the editor's avatar is what the avatar component renders for its avatar and username |
| Splash.Substring | screens/SplashScreen.js:22 | `substring(0, end)` clamps the end into the string's length |
| Splash.Step | screens/SplashScreen.js:15-37 | nothing moves before the fonts load or after the hand-over; typing goes up and erasing goes down |
| Splash.StartIsValid | screens/SplashScreen.js:7-9 | the start frame is valid and 38 steps from the hand-over |
| Splash.StepPreservesValid | screens/SplashScreen.js:19-36 | every step keeps the index in range and the shown text the prefix the index asked for |
| Splash.DisplayedIsPrefix | screens/SplashScreen.js:22 | the shown text is always a prefix of "amazonica project" |
| Splash.StepProgresses | screens/SplashScreen.js:19-36 | with the fonts loaded each step before the hand-over brings it one step closer |
| Splash.FinishedIffNoneRemaining | screens/SplashScreen.js:34-35 | the hand-over is scheduled exactly when erasing with index below 0, and then nothing is shown |
| Splash.Typewriter.constructor | screens/SplashScreen.js:7-9 | the typewriter starts at index 0, typing, showing nothing |
| Splash.Typewriter.Tick | screens/SplashScreen.js:15-37 | a timer firing moves the state by one step |
| Splash.PlayToEnd | screens/SplashScreen.js:15-39 | the animation takes 38 steps, shows only prefixes of the phrase, shows the whole phrase at least once, and ends showing nothing |
| Auth.Initial | context/AuthContext.js:7-9 | the session starts with no user, no token and loading |
| Auth.Loaded | context/AuthContext.js:13-36 | start-up: without a stored token only loading changes; an ok check sets the user with the stored token, a refusal clears token, user and storage, a failure takes the stored token and keeps the user and the storage; loading ends in every case |
| Auth.LoggedIn | context/AuthContext.js:42-60 | login success stores and sets the token and sets the user; failure changes nothing |
| Auth.LoggedOut | context/AuthContext.js:63-67 | logout clears token, user and storage |
| Auth.LogoutIdempotent | context/AuthContext.js:63-67 | logging out twice equals once |
| Auth.LogoutForgetsLogin | context/AuthContext.js:42-67 | logout after a login ends where logout alone would |
| Auth.InitialConsistent | context/AuthContext.js:7-9 | the start session is consistent |
| Auth.LoadUserKeepsConsistent | context/AuthContext.js:13-36 | start-up keeps the session consistent (a user only with a token, the token the stored one) |
| Auth.LoginKeepsConsistent | context/AuthContext.js:51-55 | login keeps the session consistent |
| Auth.LogoutKeepsConsistent | context/AuthContext.js:63-67 | logout leaves a consistent session |
| Auth.RefusedCheckForgetsToken | context/AuthContext.js:26-30 | after a refused check the next start-up finds no token and signs nobody in |
| Auth.AuthProvider.constructor | context/AuthContext.js:6-9 | the provider starts in the initial session |
| Auth.AuthProvider.LoadUser | context/AuthContext.js:13-36 | start-up moves the provider's state as specified |
| Auth.AuthProvider.Login | context/AuthContext.js:42-60 | login moves the provider's state as specified |
| Auth.AuthProvider.Logout | context/AuthContext.js:63-67 | logout moves the provider's state as specified |

## Left out

- Network I/O is not modelled. Every `fetch` and the WebSocket transport are left out. Each reply is an input datatype (ok with a body, non-ok, failed), and the socket's `readyState` and decoded frames are parameters. The open, error and close handlers only log, so they are omitted.
- The device services are parameters: AsyncStorage is the `stored` field, the image library a pick result, and `FileSystem.copyAsync` a success flag. `JSON.parse` of a product's `images` text is a function parameter assumed to yield a list of URLs.
- Text.ToLower, Text.ToUpper: only Basic Latin and basic Cyrillic (U+0400..U+045F) letters are mapped. Full Unicode case mapping is a table outside the model.
- Text.LexLe compares characters as Unicode code points. JavaScript `sort()` compares UTF-16 code units, so the two can differ only for characters outside the Basic Multilingual Plane.
- Avatar.InitialsOf: `slice(0, 2)` is taken over characters, not UTF-16 code units, so a username starting with a character outside the Basic Multilingual Plane gets different initials in JavaScript.
- The splash timers are steps: the delays (50, 1000, 40, 300 ms) are not modelled. Cancelling a pending timer when the screen re-renders is not modelled either.
- Messages.Summaries: the history requests are a function from room key to reply, so two entries with the same room key (a partner listed twice) always get the same preview. The code makes one request per entry, and those could differ.
- Concurrency is not modelled. The model applies each request's outcome in one step, so it cannot express interleaved outcomes, such as a login completing between start-up's token read and its profile check. The per-partner history requests are applied all at once, as `Promise.all` delivers them.
- Rendering, styles, layout arithmetic, alerts, navigation and the `Math.random` list keys are left out. So are the admin-only visibility of the delete button and the "Нет фото" placeholder.
- The return value of `login` (the raw response data) is not modelled. Failures of the storage calls themselves are not modelled either.
- The text inputs of the add-product and profile forms are not modelled as methods. Their handlers are plain field assignments (`onChangeText={setTitle}` and the like).
- UserManagement.UserManagementScreen.FetchSettled: the refetched list replaces the shown list even while the search box holds text. The model keeps this behaviour of the code.
- Null elements inside the server's arrays, and non-string values in fields the code treats as strings, are not modelled.
