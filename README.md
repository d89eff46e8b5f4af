# booknet-fe-admin, modelled in Dafny

A model of the admin front end of the booknet book catalogue, a React and
MUI application. The front end has no algorithm at its centre. It is a set
of small, sequential pieces, and the model states and proves what each of
them does:

- **String helpers** from `src/utils/utils.ts`: text clipping, the UTC date
  test, image `srcset` URLs and the day-label loop.
- **The route table** and the layout gate. `LayoutWrapper` renders a page
  without the sidebar exactly when the pathname is an unauthenticated
  route.
- **The request each service call sends**, as a verb and a URL built with
  the JavaScript `||` defaults.
- **The dialogs** as classes: the author and source dialogs, the generic
  upload dialog, the add-book dialog and the sign-in card.
- **The list pages and detail pages** as classes. Their fields are the
  React state of the page.
- **The notification page and the sidebar menu**, which update collections
  in memory.

How the model is built:

- Each source file becomes one module.
- A component whose handlers overwrite React state step by step becomes a
  `class`. Its fields are the state and its methods are the handlers.
- Anything a handler awaits is a method parameter saying how that call
  settled: a service response (`Outcome<T>`, where an error carries
  `response.data.message` and `message`), a `confirm()` answer, or whether
  an `onSave` threw.
- What a handler causes is returned in order: the requests it sends, and
  the navigation, close and alert effects.
- JavaScript's falsy tests, `||` and `??` are written out. The helpers are
  `Truthy`, `StringOr`, `Nullish`, `NullishMessage` and `FalsyMessage` in
  module `Wrappers`.

Shared modules:

- `Text`: `trim`, `startsWith`, `endsWith`, `includes`, `split`, ASCII
  `toLowerCase`, and the `${base}/${id}` item paths.
- `Decimal`: how an integer is printed into a template literal, and the
  parse that reads it back.
- `Seqs`: `Array.prototype.filter`, with its membership, order and
  partition lemmas.
- `Entities`: the shapes of the data, taken from the type-only files.

## Model

| member | source | states |
|---|---|---|
| Utils.SliceTextContent | src/utils/utils.ts:1-6 | Text no longer than numChars is returned unchanged. For 0 <= numChars < length the result is the first numChars characters plus "...", so it is numChars+3 long. For a negative numChars the text is always cut, to its first length+numChars characters (none if that is negative), followed by "...". |
| Utils.SliceEnd | src/utils/utils.ts:3 | `slice(0, end)`'s end index: clamped to the length, counted from the end when negative, never below 0. |
| Utils.SliceTextContentKeepsPrefix | src/utils/utils.ts:1-6 | The result always begins with the first min(length, numChars) characters of the text. |
| Utils.SliceTextContentIdempotent | src/utils/utils.ts:1-6 | Clipping twice with the same numChars >= 0 gives the same result as clipping once. |
| Utils.SliceTextContentNegativeTwice | src/utils/utils.ts:2-4 | Clipping twice at numChars <= -3 keeps the first length+2*numChars+3 characters plus "...". So -3 is a fixed point, and a lower limit cuts more text on every call. |
| Utils.IsUtcIsoDate | src/utils/utils.ts:17-19 | The date is UTC exactly when it ends with 'Z' or contains "+00:00" somewhere. |
| Utils.Srcset | src/utils/utils.ts:86-93 | `srcSet` is `src` followed by "&dpr=2 2x", and `src` is the image URL plus a `?w=…&fit=crop&auto=format` query. |
| Utils.SrcsetParameters | src/utils/utils.ts:86-93 | The query splits into w = size*cols and h = size*rows (cols and rows default to 1), fit=crop and auto=format. The printed numbers parse back to those products. |
| Utils.ImageQueryPieces | src/utils/utils.ts:88 | The image query splits at '&' into exactly its four parameters. |
| Utils.DaysInMonth | src/utils/utils.ts:103-109 | The loop yields exactly daysInMonth labels, and the k-th (1-based) is monthName + " " + k. |
| Utils.DayLabelsDistinct | src/utils/utils.ts:106 | Different days of a month get different labels. |
| Wrappers.NullishMessage | src/modules/author/AuthorsPage.tsx:50 | `e?.response?.data?.message ?? e?.message ?? fallback`: the first message present wins, even an empty one. |
| Wrappers.FalsyMessage | src/components/upload/GenericUploadDialog.tsx:89 | The `e?.message` fallback chain: the fallback is used exactly when the message is absent, empty or the fallback itself. |
| Wrappers.StringOr | src/modules/author/services/author.service.ts:9 | The falsy default on an optional string: s when it is non-empty, otherwise the fallback. |
| Wrappers.Nullish | src/modules/author/components/AuthorDialog.tsx:62 | `v ?? fallback`: v when present, otherwise the fallback. |
| AuthenticationRoutes.AuthenticationTable | src/modules/authentication/routes/routes.ts:7-35 | The constants are "/login", "/sign-in" and "/sign-up", pairwise distinct. Each helper returns its constant, and each table entry has its constant's path with `requiresAuth` false. |
| AuthorRoutes.PathAuthor | src/modules/author/routes/author.route.ts:13 | Removing "/authors/" from the path gives back exactly the id. |
| AuthorRoutes.PathAuthorInjective | src/modules/author/routes/author.route.ts:13 | Different ids give different detail paths. |
| AuthorRoutes.AuthorTable | src/modules/author/routes/author.route.ts:7-29 | `pathAuthors()` is "/authors". The table has two entries, the first on the list path, and both require a login. |
| GenreRoutes.PathGenre | src/modules/genre/routes/genre.route.ts:12 | Removing "/genres/" from the path gives back exactly the id. |
| GenreRoutes.PathGenreInjective | src/modules/genre/routes/genre.route.ts:12 | Different ids give different detail paths. |
| GenreRoutes.GenreTable | src/modules/genre/routes/genre.route.ts:6-28 | `pathGenres()` is "/genres". Both table entries require a login. |
| SourceRoutes.PathSource | src/modules/source/routes/source.route.ts:12 | Removing "/sources/" from the path gives back exactly the id. |
| SourceRoutes.PathSourceInjective | src/modules/source/routes/source.route.ts:12 | Different ids give different detail paths. |
| SourceRoutes.SourceTable | src/modules/source/routes/source.route.ts:6-28 | `pathSources()` is "/sources". Both table entries require a login. |
| Text.ResourcePathRoundTrip | src/modules/author/routes/author.route.ts:13 | `${base}/${id}` always gives back id once the base and the slash are removed. |
| Text.ResourcePathInjective | src/modules/author/services/author.service.ts:10 | Two ids give the same item URL only when they are equal. |
| AppRoutes.UnAuthRoutesOf | src/routes.ts:59-61 | The filtered table is no longer than the table, and none of its entries has `requiresAuth` true. |
| AppRoutes.UnAuthRoutesOfMembers | src/routes.ts:60 | An entry is kept exactly when it is in the table and its `requiresAuth` is false or absent. The result is a subsequence, so order is kept. |
| AppRoutes.UnAuthRoutesAreAuthentication | src/routes.ts:41-61 | `appRoutes` is the fragments concatenated in order, with 12 entries. Its unauthenticated routes are exactly the authentication table: /login, /sign-in, /sign-up. |
| LayoutWrapper.StripTrailingSlash | src/components/layout/LayoutWrapper.tsx:12 | `replace(/\/$/, "")`: exactly one trailing slash is removed, if there is one. |
| LayoutWrapper.SomePathIsIff | src/components/layout/LayoutWrapper.tsx:12 | `some(r => r.path === p)` holds exactly when some entry's path equals p. |
| LayoutWrapper.ChromeOfIff | src/components/layout/LayoutWrapper.tsx:12-20 | The page is bare exactly when some unauthenticated route's path equals the pathname with one trailing slash removed. |
| LayoutWrapper.LayoutIff | src/components/layout/LayoutWrapper.tsx:12-20 | With the app's table, the page is bare exactly when the stripped pathname is /login, /sign-in or /sign-up. |
| LayoutWrapper.LayoutExamples | src/components/layout/LayoutWrapper.tsx:12-20 | Bare for "/sign-in/" and "/login". Chromed for "/sign-in//", "/sign-in/x", "/" and "/authors/42". |
| Http.PageOr | src/modules/author/services/author.service.ts:9 | The default page: 0 exactly when the page is absent or 0. |
| Http.SizeOr | src/modules/author/services/author.service.ts:9 | The default size: an absent size or a size of 0 becomes 100. |
| Http.NameOr | src/modules/author/services/author.service.ts:9 | The default name: empty exactly when the name is absent or empty. |
| Http.ListUrl | src/modules/author/services/author.service.ts:9 | The list URL is the resource, then "?page=", then the page/size/name query. |
| Http.ListUrlQuery | src/modules/author/services/author.service.ts:9 | The query splits into page=P, size=S, name=N, and P and S parse back to the defaulted numbers. The name is not encoded: a name containing '&' gives more than three parameters. |
| Http.ListUrlInjective | src/modules/genre/services/genre.service.ts:11 | Two list URLs are equal only when they have the same defaulted page, size and name. |
| Http.ListQueryInjective | src/modules/author/services/author.service.ts:9 | The query alone determines the defaulted page, size and name. |
| Http.SeparatedWordUnique | src/modules/author/services/author.service.ts:9 | A word without the separator, followed by the separator, is determined by the whole string. |
| Http.ListUrlIsNotItemUrl | src/modules/author/services/author.service.ts:9-10 | A list URL is neither the bare resource URL nor any item URL. |
| AuthorService.AuthorRequests | src/modules/author/services/author.service.ts:9-16 | getAuthors is GET on the list URL. getAuthor, putAuthor and deleteAuthor are GET, PUT and DELETE on "/author/" + id, and the id can be read back from that path. |
| AuthorService.AuthorWriteRequests | src/modules/author/services/author.service.ts:12-24 | postAuthor is POST "/author". uploadAuthor is a multipart POST to "/author/upload/" + source. |
| AuthorService.AuthorRequest | src/modules/author/services/author.service.ts:9-24 | Every author request stays under "/author". Exactly the two reads are GETs, and exactly the upload is multipart. Bulk delete goes to "/author/delete" in this corrected table. |
| AuthorService.AuthorRequestAsWritten | src/modules/author/services/author.service.ts:15 | The file as written: every operation but bulk delete sends what AuthorRequest sends, and bulk delete sends the request of postAuthor. |
| AuthorService.DeleteMultiAuthorAsWrittenIsCreate | src/modules/author/services/author.service.ts:12-15 | As written, deleteMultiAuthor sends exactly the request postAuthor sends: POST "/author". |
| AuthorService.AuthorRequestIdentifiesOperation | src/modules/author/services/author.service.ts:9-24 | With the bulk delete on its own URL, equal requests mean the same operation. For listing, it means the same defaulted page, size and name. |
| GenreService.GenreRequests | src/modules/genre/services/genre.service.ts:11-18 | getGenres is GET on the list URL. getGenre, putGenre and deleteGenre are GET, PUT and DELETE on "/genre/" + id, and the id can be read back from that path. |
| GenreService.GenreWriteRequests | src/modules/genre/services/genre.service.ts:14-26 | postGenre is POST "/genre". Bulk delete is POST "/genre/delete". uploadGenre is a multipart POST to "/genre/upload/" + source. |
| GenreService.GenreRequest | src/modules/genre/services/genre.service.ts:11-26 | Every genre request stays under "/genre". Exactly the two reads are GETs, and exactly the upload is multipart. |
| GenreService.GenreRequestIdentifiesOperation | src/modules/genre/services/genre.service.ts:11-26 | Equal requests mean the same operation. For listing, it means the same defaulted page, size and name. |
| SourceService.SourceRequests | src/modules/source/services/source.service.ts:9-14 | getSources is GET "/source" with no paging. get, put and delete use "/source/" + id. putSource uses POST, not PUT. postSource is POST "/source". |
| SourceService.SourceRequest | src/modules/source/services/source.service.ts:9-14 | Every source request stays under "/source". Exactly the two reads are GETs, exactly create and update are POSTs, and none is multipart. |
| SourceService.SourceRequestIdentifiesOperation | src/modules/source/services/source.service.ts:9-14 | Equal requests mean the same operation, even though putSource and postSource both use POST. |
| Forms.NameError | src/modules/author/components/AuthorDialog.tsx:72-77 | "Name is required" is reported exactly when the name is empty or only white space. |
| Forms.DashIfEmpty | src/modules/author/AuthorPage.tsx:131-132 | A detail value with its dash default is never blank, and is the dash exactly when the value is absent, empty or itself a dash. |
| Forms.DetailViewOf | src/modules/author/AuthorPage.tsx:63-98 | Precedence is loading, then a non-empty error, then "Not found" when there is no row, then the details. Each case is stated as an iff. |
| AuthorDialog.FormOf | src/modules/author/components/AuthorDialog.tsx:59-66 | Opening fills name, description and imageUrl from the initial author, each defaulting to "". The books are the ids of its books in order, or [] when there are none. |
| AuthorDialog.BookIds | src/modules/author/components/AuthorDialog.tsx:65 | `books.map(b => b.idBook)`: the same length, and entry i is the id of book i. |
| AuthorDialog.PayloadNormalised | src/modules/author/components/AuthorDialog.tsx:83-88 | For a valid form, the payload's name is non-empty and trimmed. Description and imageUrl are present and trimmed. Reopening on the payload and saving again reproduces it. |
| AuthorDialog.Payload | src/modules/author/components/AuthorDialog.tsx:83-88 | The payload name is the trimmed form name, and it is empty exactly when validation refuses the name. Description and imageUrl are always sent, as the trimmed form value or "" when missing. The book ids are sent as the form holds them, or [] when it holds none. |
| AuthorDialog.TrimmedIsFixed | src/modules/author/components/AuthorDialog.tsx:85-86 | `v?.trim() ?? ""` is unchanged by another trim. |
| AuthorDialog.SaveUnchangedAuthor | src/modules/author/components/AuthorDialog.tsx:59-88 | Opening on an author and saving without edits sends its trimmed fields and its book ids. |
| AuthorDialog.Title | src/modules/author/components/AuthorDialog.tsx:113 | "Edit Author" exactly when the initial author has a non-empty id, "Add Author" otherwise. |
| AuthorDialog.Dialog.Open | src/modules/author/components/AuthorDialog.tsx:59-70 | Opening resets the form from the initial author, clears the error and clears busy. |
| AuthorDialog.Dialog.SetName | src/modules/author/components/AuthorDialog.tsx:123 | Only the form's name changes. |
| AuthorDialog.Dialog.SetDescription | src/modules/author/components/AuthorDialog.tsx:131 | Only the form's description changes. |
| AuthorDialog.Dialog.SetImageUrl | src/modules/author/components/AuthorDialog.tsx:139 | Only the form's image URL changes. |
| AuthorDialog.Dialog.Validate | src/modules/author/components/AuthorDialog.tsx:72-77 | Succeeds exactly when the name is not blank. The stored error is NameError of the name. |
| AuthorDialog.Dialog.Submit | src/modules/author/components/AuthorDialog.tsx:79-93 | A blank name sends nothing. Otherwise the normalised payload is saved. The dialog closes only when the save did not throw, and busy is false afterwards. |
| SourceDialog.FormOf | src/modules/source/components/SourceDialog.tsx:53-58 | Opening fills name and description from the initial source, each defaulting to "". |
| SourceDialog.PayloadNormalised | src/modules/source/components/SourceDialog.tsx:75 | For a valid form, the payload is the trimmed name (non-empty) and the trimmed description. Saving it again reproduces it. |
| SourceDialog.Payload | src/modules/source/components/SourceDialog.tsx:75 | The payload is the trimmed form name and the trimmed form description. The name is empty exactly when validation refuses it, and the description is never longer than the form's. |
| SourceDialog.SaveUnchangedSource | src/modules/source/components/SourceDialog.tsx:53-75 | Opening on a source and saving without edits sends its trimmed fields. |
| SourceDialog.Title | src/modules/source/components/SourceDialog.tsx:100 | "Edit Source" exactly when the initial source has a non-empty id, "Add Source" otherwise. |
| SourceDialog.Dialog.Open | src/modules/source/components/SourceDialog.tsx:53-62 | Opening resets the form, clears the error and clears busy. |
| SourceDialog.Dialog.SetName | src/modules/source/components/SourceDialog.tsx:110 | Only the form's name changes. |
| SourceDialog.Dialog.SetDescription | src/modules/source/components/SourceDialog.tsx:118 | Only the form's description changes. |
| SourceDialog.Dialog.Validate | src/modules/source/components/SourceDialog.tsx:64-69 | Succeeds exactly when the name is not blank. The stored error is NameError of the name. |
| SourceDialog.Dialog.Submit | src/modules/source/components/SourceDialog.tsx:71-80 | A blank name sends nothing. Otherwise the trimmed payload is saved. The dialog closes only after a save that did not throw, and busy is false afterwards. |
| UploadDialog.DefaultMissingSelectionMessage | src/components/upload/GenericUploadDialog.tsx:103 | With the default label of line 55 the message is "Please select a source and choose a file.". |
| UploadDialog.MissingSelectionMessage | src/components/upload/GenericUploadDialog.tsx:103 | The message is "Please select a ", then the label (default "Source") lowered, then " and choose a file.". It is 35 characters longer than the label, and has no ASCII capital after its initial "P", whatever the label's case. |
| UploadDialog.Dialog.UploadEnabled | src/components/upload/GenericUploadDialog.tsx:213 | The Upload button is enabled exactly when no upload is running and submit would pass its missing-selection check. |
| UploadDialog.FirstFile | src/components/upload/GenericUploadDialog.tsx:96-99 | `files?.[0] ?? null`: the first chosen file, or none when nothing was chosen. |
| UploadDialog.Dialog.Open | src/components/upload/GenericUploadDialog.tsx:73-85 | Opening clears the selection, the file, the error and busy, and starts fetching sources. The Upload button is then disabled. |
| UploadDialog.Dialog.FinishSourceFetch | src/components/upload/GenericUploadDialog.tsx:86-92 | On success the sources are the response. On failure the error is the message, or "Failed to load sources" when it is empty. The fetch ends either way. |
| UploadDialog.Dialog.SelectSource | src/components/upload/GenericUploadDialog.tsx:162 | Only the selected source changes. |
| UploadDialog.Dialog.PickFile | src/components/upload/GenericUploadDialog.tsx:96-99 | The file becomes the first chosen file, or none. |
| UploadDialog.Dialog.Submit | src/components/upload/GenericUploadDialog.tsx:101-124 | Without a source or a file, the message is set and nothing is uploaded. Otherwise the selected source's id is sent with the file under "file". Success closes the dialog, then runs onUploaded if given, and clears the error. A failure keeps the dialog open with the message, falling back to "Upload failed". Whenever the button is enabled (line 213), submit uploads. |
| AddBookDialog.Offerable | src/modules/author/components/AddBookDialog.tsx:37 | No book already on the author is offered, and there are never more options than results. |
| AddBookDialog.OfferableMembers | src/modules/author/components/AddBookDialog.tsx:37 | A result is offered exactly when its id is not among the existing ids, and the result order is kept. |
| AddBookDialog.Dialog.InputChange | src/modules/author/components/AddBookDialog.tsx:28-43 | A query under 2 characters clears the options and searches nothing. Otherwise it searches page 0, size 100, by that name. Success offers the filtered results. A failure keeps the options. Loading ends either way. |
| AddBookDialog.Dialog.Select | src/modules/author/components/AddBookDialog.tsx:25 | Only the selection changes. |
| AddBookDialog.Dialog.Submit | src/modules/author/components/AddBookDialog.tsx:45-52 | Without a selection nothing happens. Otherwise the book is added, then the dialog closes, and the selection and options are cleared. |
| SignInCard.AuthHeader | src/modules/authentication/components/SignInCard.tsx:88 | The 'authorization' header, falling back to 'Authorization' when it is absent or empty. |
| SignInCard.BearerToken | src/modules/authentication/components/SignInCard.tsx:90-91 | A token exists exactly when the header starts with "Bearer ". The token has no space, and the header starts with "Bearer " followed by the token. |
| SignInCard.BearerTokenRoundTrip | src/modules/authentication/components/SignInCard.tsx:90-91 | "Bearer " + t gives back t, and so does "Bearer " + t + " " + anything. |
| SignInCard.UsernameError | src/modules/authentication/components/SignInCard.tsx:111-118 | Flagged exactly when the username is empty, with "Please enter a valid username.". |
| SignInCard.PasswordError | src/modules/authentication/components/SignInCard.tsx:121-128 | Flagged exactly when the password is shorter than 5, with "Password must be at least 5 characters long.". |
| SignInCard.Card.ValidateInputs | src/modules/authentication/components/SignInCard.tsx:103-131 | Each flag and message follows its field's check, and a valid field's message is cleared. The result is true exactly when both fields are valid. |
| SignInCard.Card.HandleSubmit | src/modules/authentication/components/SignInCard.tsx:65-101 | While an error flag is set nothing is sent. Otherwise it logs in. With a Bearer token it stores the token, refreshes the user and navigates home, in that order. Without one it only alerts "Login failed: token missing.". A failed login does nothing more. |
| NotificationPage.MarkRead | src/modules/notification/NotificationPage.tsx:54-58 | Same length. An entry with the id gets read = true, and every other entry is unchanged. |
| NotificationPage.MarkReadProperties | src/modules/notification/NotificationPage.tsx:56 | Ids and order are kept, entries with the id are read, others are untouched, and marking again changes nothing. |
| NotificationPage.MarkReadLeavesUnread | src/modules/notification/NotificationPage.tsx:54-66 | After marking, every entry on the unread tab has another id and was already in the list. |
| NotificationPage.RemoveId | src/modules/notification/NotificationPage.tsx:60-62 | No entry with the id is left, and the list does not grow. |
| NotificationPage.RemoveIdMembers | src/modules/notification/NotificationPage.tsx:61 | An entry stays exactly when its id differs, with its multiplicity and the order kept. |
| NotificationPage.TabsPartition | src/modules/notification/NotificationPage.tsx:64-66 | "all" shows every entry. "read" and "unread" show only read and only unread entries, and together they make up the list. |
| NotificationPage.GoToDetail | src/modules/notification/NotificationPage.tsx:44-48 | It navigates exactly when the derived path is non-empty, and then to that path. |
| NotificationPage.ItemClick | src/modules/notification/NotificationPage.tsx:111-113 | A click on a system notification, whose button `isDisable` disables, never navigates. Any other one navigates exactly when its path is non-empty, and then to that path. |
| NotificationPage.ItemTooltip | src/modules/notification/NotificationPage.tsx:116-118 | The tooltip is the system notice exactly for system notifications. Otherwise it says "Already read" exactly for read ones, and is one of the three texts. |
| NotificationPage.Visible | src/modules/notification/NotificationPage.tsx:64-66 | "all" shows the list itself. "read" and "unread" show no more entries than the list, each with that tab's read flag. |
| NotificationPage.Page.FinishFetch | src/modules/notification/NotificationPage.tsx:33-42 | A successful fetch sets the list and sets unreadCount to the number of unread entries. A failure changes nothing. |
| NotificationPage.Page.SetTab | src/modules/notification/NotificationPage.tsx:27 | Only the tab changes. |
| NotificationPage.Page.MarkAsRead | src/modules/notification/NotificationPage.tsx:54-58 | The list becomes MarkRead of the old list, and unreadCount and the tab stay. |
| NotificationPage.Page.Delete | src/modules/notification/NotificationPage.tsx:60-62 | The list becomes RemoveId of the old list, and unreadCount and the tab stay. |
| MenuContent.Toggle | src/components/layout/sidebar/MenuContent.tsx:67-70 | The clicked label's open state flips and every other label's state is kept. |
| MenuContent.ToggleTwice | src/components/layout/sidebar/MenuContent.tsx:69 | Toggling the same label twice restores every label's open state. |
| MenuContent.Visibility | src/components/layout/sidebar/MenuContent.tsx:118 | Both main items are always listed, signed in or not, since neither belongs to 'users'. |
| MenuContent.MainItemVisible | src/components/layout/sidebar/MenuContent.tsx:118 | A main item is hidden exactly when it belongs to 'users' and the user is signed out or has no role. |
| MenuContent.AdminListVisible | src/components/layout/sidebar/MenuContent.tsx:131 | The admin list is shown exactly to a signed-in user whose role is the administrator role. |
| MenuContent.IsActive | src/components/layout/sidebar/MenuContent.tsx:63 | An item is selected on its own path and never on a path below it. |
| MenuContent.DetailPageSelectsNoAdminItem | src/components/layout/sidebar/MenuContent.tsx:63 | On an author's detail page no admin item is selected, not even "Author", whose path the detail path extends. |
| MenuContent.MenuItemsAreLeaves | src/components/layout/sidebar/MenuContent.tsx:30-49 | No listed item has sub-items, so every click on a listed item navigates. |
| MenuContent.RoutedAdminTargets | src/components/layout/sidebar/MenuContent.tsx:39-41 | The Source, Genre and Author admin entries lead to paths the route table has. |
| MenuContent.UnroutedAdminTargets | src/components/layout/sidebar/MenuContent.tsx:36-38 | The Analytics and Dashboard admin entries lead to paths the route table lacks. |
| MenuContent.Menu.HandleClick | src/components/layout/sidebar/MenuContent.tsx:65-74 | An item with sub-items toggles its label and does not navigate. Any other item navigates to its target and leaves the record alone. |
| AuthorsPage.LoadRequestAsks | src/modules/author/AuthorsPage.tsx:44 | The load asks for the grid's page and page size (a size of 0 becomes 100) with an empty name. |
| AuthorsPage.LoadRequest | src/modules/author/AuthorsPage.tsx:44 | The load is a plain GET whose URL starts "/author?page=". |
| AuthorsPage.LoadRequestInjective | src/modules/author/AuthorsPage.tsx:44 | Two loads send the same request only for the same page and effective size. |
| AuthorsPage.FirstRenderReloadDiffers | src/modules/author/AuthorsPage.tsx:104-113 | Away from page 0 with size 25, the reload with the first-render pagination asks for a different page than the grid shows. |
| AuthorsPage.DetailsLinkIsRoute | src/modules/author/AuthorsPage.tsx:88 | The "Open details" link and the double-click target of line 167 are the same path. |
| AuthorsPage.ListEditSendsNoBooks | src/modules/author/AuthorsPage.tsx:178 | A list row has no books, so saving an edit started from the list sends an empty book list. |
| AuthorsPage.Page.constructor | src/modules/author/AuthorsPage.tsx:27-39 | Initially page 0, size 25, no rows, a count of 0, loading, no error, and no dialog open. |
| AuthorsPage.Page.StartLoad | src/modules/author/AuthorsPage.tsx:41-44 | Loading starts with the error cleared, and the list request for the given page is sent. |
| AuthorsPage.Page.FinishLoad | src/modules/author/AuthorsPage.tsx:45-53 | Success takes the server's page and size, rows = content, and the count = the number of rows on the page. Failure sets the message, falling back to "Failed to load authors", and keeps the rows. Loading ends either way. |
| AuthorsPage.Page.ChangePagination | src/modules/author/AuthorsPage.tsx:164 | A new pagination is stored, and the effect of lines 56-58 loads it. |
| AuthorsPage.Page.Refresh | src/modules/author/AuthorsPage.tsx:127 | Reloads the current page. |
| AuthorsPage.Page.Add | src/modules/author/AuthorsPage.tsx:141-144 | Opens the dialog with no row to edit. |
| AuthorsPage.Page.Edit | src/modules/author/AuthorsPage.tsx:93 | Opens the dialog on that row. |
| AuthorsPage.Page.DialogInitial | src/modules/author/AuthorsPage.tsx:178 | The dialog gets the edited row's fields, with no books, or nothing when adding. |
| AuthorsPage.Page.CloseDialog | src/modules/author/AuthorsPage.tsx:177 | Only the dialog flag changes. |
| AuthorsPage.Page.SetUploadOpen | src/modules/author/AuthorsPage.tsx:134 | Only the upload flag changes, here and in the close of line 188. |
| AuthorsPage.Page.Save | src/modules/author/AuthorsPage.tsx:179-183 | An edit puts to the edited row's id and an add posts. Only a successful write reloads, and it reloads the current page. |
| AuthorsPage.Page.DeleteRowAsWritten | src/modules/author/AuthorsPage.tsx:101-105 | Deletes only after confirmation. A successful delete reloads page 0 with size 25, whatever page is shown. |
| AuthorsPage.Page.DeleteRow | src/modules/author/AuthorsPage.tsx:101-105 | Deletes only after confirmation. A successful delete reloads the page on show. |
| AuthorsPage.Page.Uploaded | src/modules/author/AuthorsPage.tsx:190 | A finished upload reloads the current page. |
| GenresPage.LoadRequestAsks | src/modules/genre/GenresPage.tsx:44 | The load asks for the grid's page and size (0 becomes 100) with an empty name. |
| GenresPage.LoadRequest | src/modules/genre/GenresPage.tsx:44 | The load is a plain GET whose URL starts "/genre?page=". |
| GenresPage.LoadRequestInjective | src/modules/genre/GenresPage.tsx:44 | Two loads send the same request only for the same page and effective size. |
| GenresPage.FirstRenderReloadDiffers | src/modules/genre/GenresPage.tsx:86-95 | Away from page 0 with size 25, the first-render reload asks for a different page than the grid shows. |
| GenresPage.DetailsLinkIsRoute | src/modules/genre/GenresPage.tsx:70 | The "Open details" link and the double-click target of line 149 are the same path. |
| GenresPage.Page.constructor | src/modules/genre/GenresPage.tsx:27-39 | Initially page 0, size 25, no rows, a count of 0, loading, no error. |
| GenresPage.Page.StartLoad | src/modules/genre/GenresPage.tsx:41-44 | Loading starts with the error cleared, and the list request is sent. |
| GenresPage.Page.FinishLoad | src/modules/genre/GenresPage.tsx:45-53 | Success takes the server's pagination, the content and its length. Failure falls back to "Failed to load genres". Loading ends either way. |
| GenresPage.Page.ChangePagination | src/modules/genre/GenresPage.tsx:146 | A new pagination is stored, and the effect of lines 56-58 loads it. |
| GenresPage.Page.Refresh | src/modules/genre/GenresPage.tsx:109 | Reloads the current page. |
| GenresPage.Page.Add | src/modules/genre/GenresPage.tsx:123-125 | Opens the dialog with no row to edit. |
| GenresPage.Page.Edit | src/modules/genre/GenresPage.tsx:75 | Opens the dialog on that row. |
| GenresPage.Page.CloseDialog | src/modules/genre/GenresPage.tsx:159 | Only the dialog flag changes. |
| GenresPage.Page.SetUploadOpen | src/modules/genre/GenresPage.tsx:116 | Only the upload flag changes, here and in the close of line 170. |
| GenresPage.Page.Save | src/modules/genre/GenresPage.tsx:161-165 | An edit puts to the row's id and an add posts. Only a successful write reloads the current page. |
| GenresPage.Page.DeleteRowAsWritten | src/modules/genre/GenresPage.tsx:83-87 | Deletes only after confirmation. A successful delete reloads page 0 with size 25. |
| GenresPage.Page.DeleteRow | src/modules/genre/GenresPage.tsx:83-87 | Deletes only after confirmation. A successful delete reloads the page on show. |
| GenresPage.Page.Uploaded | src/modules/genre/GenresPage.tsx:172 | A finished upload reloads the current page. |
| SourcesPage.LoadRequest | src/modules/source/SourcesPage.tsx:32 | The load is an unpaged GET of "/source". |
| SourcesPage.DetailsLinkIsRoute | src/modules/source/SourcesPage.tsx:62 | The "Open details" link and the double-click target of line 116 are the same path. |
| SourcesPage.Page.constructor | src/modules/source/SourcesPage.tsx:22-27 | Initially no rows, loading, no error, no dialog. |
| SourcesPage.Page.StartLoad | src/modules/source/SourcesPage.tsx:29-32 | Loading starts with the error cleared. |
| SourcesPage.Page.FinishLoad | src/modules/source/SourcesPage.tsx:33-38 | Success replaces the rows with the response. Failure falls back to "Failed to load sources" and keeps the rows. Loading ends either way. |
| SourcesPage.Page.Add | src/modules/source/SourcesPage.tsx:101 | Opens the dialog with no row to edit. |
| SourcesPage.Page.Edit | src/modules/source/SourcesPage.tsx:67 | Opens the dialog on that row. |
| SourcesPage.Page.CloseDialog | src/modules/source/SourcesPage.tsx:126 | Only the dialog flag changes. |
| SourcesPage.Page.DialogInitial | src/modules/source/SourcesPage.tsx:127 | The dialog gets the edited row's fields, or nothing when adding. |
| SourcesPage.Page.Save | src/modules/source/SourcesPage.tsx:128-132 | An edit writes to the row's id with the service's POST, and an add posts. Only a successful write reloads. |
| SourcesPage.Page.DeleteRow | src/modules/source/SourcesPage.tsx:75-79 | Deletes only after confirmation. A successful delete reloads the list. |
| AuthorPage.DetailRows | src/modules/author/AuthorPage.tsx:129-132 | Shows ID and name, and the description and image URL. An absent or empty description or image URL shows "—". |
| AuthorPage.Page.constructor | src/modules/author/AuthorPage.tsx:35-39 | The first render shows "Loading…". |
| AuthorPage.Page.View | src/modules/author/AuthorPage.tsx:63-100 | The page shows "Loading…" exactly while loading, the error exactly when not loading with a non-empty error, and the loaded author exactly when neither applies and there is one. |
| AuthorPage.Page.StartLoad | src/modules/author/AuthorPage.tsx:41-45 | Without a route id nothing is sent and nothing changes, so the page keeps showing "Loading…". Otherwise it starts loading that author with the error cleared. |
| AuthorPage.Page.FinishLoad | src/modules/author/AuthorPage.tsx:45-51 | Success stores the author and shows it. Failure shows the message, falling back to "Failed to load". An empty server message is no error, and the old row or "Not found" shows. Loading ends either way. |
| AuthorPage.Page.DoDelete | src/modules/author/AuthorPage.tsx:56-61 | Nothing without a row or a confirmation. Otherwise it deletes the author and goes back once the delete succeeded. |
| AuthorPage.Page.SetEditOpen | src/modules/author/AuthorPage.tsx:114 | Only the edit flag changes, here and in the close of line 139. |
| AuthorPage.Page.SaveEdit | src/modules/author/AuthorPage.tsx:141-144 | Puts to the shown author's id. A successful put reloads when the route has an id, and the page then shows "Loading…". Without a route id nothing more is sent and the view is kept. |
| GenrePage.DetailRows | src/modules/genre/GenrePage.tsx:129-130 | The card answers "ID" with the genre's id and "Name" with its name, verbatim even when empty, and shows no other label. |
| GenrePage.Page.constructor | src/modules/genre/GenrePage.tsx:35-39 | The first render shows "Loading…". |
| GenrePage.Page.View | src/modules/genre/GenrePage.tsx:63-100 | The page shows "Loading…" exactly while loading, the error exactly when not loading with a non-empty error, and the loaded genre exactly when neither applies and there is one. |
| GenrePage.Page.StartLoad | src/modules/genre/GenrePage.tsx:41-45 | Without a route id nothing is sent and the page stays loading. Otherwise it loads that genre. |
| GenrePage.Page.FinishLoad | src/modules/genre/GenrePage.tsx:45-51 | Success shows the genre. Failure shows the message, falling back to "Failed to load". An empty server message is no error. |
| GenrePage.Page.DoDelete | src/modules/genre/GenrePage.tsx:56-61 | Needs a row and a confirmation, then deletes and goes back once the delete succeeded. |
| GenrePage.Page.SetEditOpen | src/modules/genre/GenrePage.tsx:114 | Only the edit flag changes, here and in the close of line 137. |
| GenrePage.Page.SaveEdit | src/modules/genre/GenrePage.tsx:139-142 | Puts to the shown genre's id. A successful put reloads when the route has an id. Without a route id nothing more is sent and the view is kept. |
| SourcePage.DetailRows | src/modules/source/SourcePage.tsx:129-131 | Shows ID, name and description. An absent or empty description shows "—". |
| SourcePage.Page.constructor | src/modules/source/SourcePage.tsx:35-39 | The first render shows "Loading…". |
| SourcePage.Page.View | src/modules/source/SourcePage.tsx:63-100 | The page shows "Loading…" exactly while loading, the error exactly when not loading with a non-empty error, and the loaded source exactly when neither applies and there is one. |
| SourcePage.Page.StartLoad | src/modules/source/SourcePage.tsx:41-45 | Without a route id nothing is sent and the page stays loading. Otherwise it loads that source. |
| SourcePage.Page.FinishLoad | src/modules/source/SourcePage.tsx:45-51 | Success shows the source. Failure shows the message, falling back to "Failed to load". An empty server message is no error. |
| SourcePage.Page.DoDelete | src/modules/source/SourcePage.tsx:56-61 | Needs a row and a confirmation, then deletes and goes back once the delete succeeded. |
| SourcePage.Page.SetEditOpen | src/modules/source/SourcePage.tsx:114 | Only the edit flag changes, here and in the close of line 138. |
| SourcePage.Page.SaveEdit | src/modules/source/SourcePage.tsx:140-143 | Writes to the shown source's id with the service's POST. A successful write reloads when the route has an id. Without a route id nothing more is sent and the view is kept. |
| Decimal.ParseIntToString | src/modules/author/services/author.service.ts:9 | An integer printed into a template literal parses back to itself. |
| Text.TrimEmptyIff | src/modules/author/components/AuthorDialog.tsx:74 | `s.trim()` is empty exactly when s is all white space. |
| Text.TrimIdempotent | src/modules/source/components/SourceDialog.tsx:75 | Trimming a trimmed string changes nothing. |
| Text.SplitFirstIsPrefix | src/modules/authentication/components/SignInCard.tsx:91 | The first piece of a split is a prefix of the string, followed by the separator or the end. |

## Left out

- The HTTP client (the axios `API` instance, not part of this model): only each call's verb, URL and multipart flag are modelled. Request bodies, headers other than the multipart one, and responses are left out. Responses enter the page and dialog models as `Outcome` parameters.
- The authentication and notification services, `AuthContext` and `NotificationContext`: their calls are inputs to SignInCard and NotificationPage. `refreshUser` is an effect.
- The book service that `AddBookDialog` searches: the search is returned as a `BookQuery` value.
- `formPathFromNotification`, which derives a notification's path: `NotificationPage.GoToDetail` takes the path as its input.
- `AuthorsPage.Page.FinishLoad`, `GenresPage.Page.FinishLoad`: a response without `content` makes `content.length` throw inside the `try`. That path is left out, because a `Pagination` always has content here.
- `AuthorsPage.Page.FinishLoad`, `GenresPage.Page.FinishLoad`: storing the server's pagination re-runs the effect, and with it another load, when the page or size changed. The model stores the pagination but does not issue that second load. React's effect scheduling is not modelled.
- Overlapping asynchronous loads and their races: each load is one StartLoad followed by one FinishLoad.
- Rendering: JSX, MUI components, styles, icons, transitions, the tooltips other than the notification item's, breadcrumbs (`Header`), the layout and side menu components, `NavbarPath`, `AppCard`, 404, snackbars and the `roleUtils` icons.
- `App.tsx` and `main.tsx`, which wire the routes and providers into React.
- `formatNumber`, `isSameDateAsToday`, `formatRelativeTime`, `formatIsoDate` and the `Date` part of `getDaysInMonth`: these depend on the clock and locale. The month name and day count are inputs of `Utils.DaysInMonth`.
- The values of the `Role` enumeration: the model knows only the administrator role and any other role.
- The notification's author and data fields, which only the rendering uses.
- The genre dialog and genre type files are not part of this model. The genre pages use `Entities.Genre(idGenre, name)`, and their dialog's payload is not modelled.
- Text.Trim: white space is ASCII white space, no-break space and the byte-order mark. The other Unicode space separators and line separators that JavaScript's `trim` also removes are not modelled.
- Text.ToLower: only ASCII letters are lowered, where JavaScript lowers all of Unicode. Only the upload dialog's label uses it.
- Utils.SliceTextContent: lengths and the cut count Unicode code points, where JavaScript's `length` and `slice` count UTF-16 code units. Text with characters outside the Basic Multilingual Plane is clipped later than in the source, and never split inside a surrogate pair. The lemmas about it share this gap.
- SignInCard.PasswordError: the five-character minimum counts code points, not UTF-16 code units. A password of three characters outside the Basic Multilingual Plane is refused here, while the source accepts it.
- SignInCard.Card.ValidateInputs: its password check is PasswordError's, so it has the same code-point count.
- AddBookDialog.Dialog.InputChange: the two-character search threshold counts code points, not UTF-16 code units. A single character outside the Basic Multilingual Plane clears the options here, while the source searches for it.
- Numbers are integers. Page, size, srcset size, rows and cols can have fractions or be `NaN` in JavaScript, and these are not modelled.
- The sign-in card's dialog for a forgotten password, `handleClickOpen` and `handleClose`, which only open and close it.
- The upload dialog's `accept` filter, which the browser enforces.
- `AddBookDialog` is not mounted by any component in this model. It is modelled from its own handlers, and `onAdd` is its `Add` effect.
- `AuthorsPage.Page`, `GenresPage.Page`: the empty-list fallback of `setRows` is left out, because the content is always present here.

## Findings

| source | as written | input that shows it | evidently intended | confidence | as-written member | corrected member |
|---|---|---|---|---|---|---|
| src/modules/author/services/author.service.ts:15 | `deleteMultiAuthor` posts the id list to "/author", which is the URL and verb `postAuthor` uses to create an author | `deleteMultiAuthor(["a1","a2"])` sends POST "/author", the same request as `postAuthor(author)` | a bulk delete on its own endpoint, "/author/delete", as `deleteMultiGenre` does at src/modules/genre/services/genre.service.ts:17 | medium, not executed | `AuthorService.AuthorRequestAsWritten`, shown by `AuthorService.DeleteMultiAuthorAsWrittenIsCreate` | `AuthorService.AuthorRequest`, with `AuthorService.AuthorRequestIdentifiesOperation` |
| src/modules/author/AuthorsPage.tsx:104,113 | the row delete reloads `paginationModel` as captured when the columns were memoised. The memo depends only on `load`, so that is the first render's 0/25 | the grid shows page 2 with size 25. Confirm a delete that succeeds: the reload asks for page=0&size=25 | reload the page on show, as Refresh (line 127), onSave (line 182) and onUploaded (line 190) do | high, not executed | `AuthorsPage.Page.DeleteRowAsWritten`, shown by `AuthorsPage.FirstRenderReloadDiffers` | `AuthorsPage.Page.DeleteRow` |
| src/modules/genre/GenresPage.tsx:86,95 | the same stale pagination in the genre row delete | the grid shows page 1 with size 10. A successful delete reloads page=0&size=25 | reload the page on show, as Refresh (line 109) does | high, not executed | `GenresPage.Page.DeleteRowAsWritten`, shown by `GenresPage.FirstRenderReloadDiffers` | `GenresPage.Page.DeleteRow` |
