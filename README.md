# MaseplWeb browser shell: a verified model of its logic

MaseplWeb is a small desktop browser shell in two variants: an Electron one
(`main.js`, the main process; `renderer.js`, the page with the address bar,
history and bookmarks) and a PyQt one (`MaseplWeb.py`). This project models in
Dafny the parts of it that decide something:

- **renderer.js** (module `Renderer`): the history and bookmark lists loaded
  from localStorage and rewritten in full on every change (class `PageStore`),
  the 200-entry cap on history with oldest-first eviction, URL-unique
  bookmarks, the newest-first listings of the two modals, the address-bar
  normaliser of `navigate`, and what the update button does with the main
  process's answer.
- **main.js** (module `Updater`): the `check-for-update` handler as a total
  decision over what the release fetch and the download settle to
  (`PlanUpdate`, `CheckForUpdateResult`), the choice of the first `.exe`
  asset, the status and cleanup rules of `downloadFile`, and `run-updater`'s
  open-then-quit order (class `Host`, which holds the files and an ordered
  trace of requested effects).
- **MaseplWeb.py** (module `QtShell`): the `http://` prefixing of
  `navigate_to_url` and `set_start_page`, the start page read from
  `startpage.txt` with its default, and the tab and history state of
  `SimpleBrowser` (class `SimpleBrowser`), whose `close_tab` never leaves
  fewer than one tab.
- **Text** holds the string helpers they share: prefix and suffix tests,
  trimming by a whitespace set (JavaScript `trim` and Python `strip` use
  different sets, both written out), and decimal digits of a status code.

Inputs from outside the program are parameters: the stored localStorage
text and a JSON decoder for it, the clock's timestamp string, what
`getLatestRelease` settles to, what the download request receives, the page
URL and title from the web view, and the input dialog's answer.

Some behaviours of the code are easy to miss; the model follows the code:

- Loading a list whose stored text is malformed JSON is not caught in
  `renderer.js:35-36`; `LoadList` returns `None` there instead of an empty
  list.
- `downloadFile` deletes the destination only on a transport error; on a
  non-200 status the (empty) file created by `createWriteStream` stays
  (`DownloadedFiles`).
- `getLatestRelease` does not look at the HTTP status, so an error document
  from the release API reaches the handler as a truthy value without
  `assets`. The handler then fails on `latest.assets.find` and answers with
  the TypeError's message, not with "No release found"
  (`ReleaseWithoutAssets`).
- `https.get` does not follow redirects, so a download URL that answers with
  a redirect (status 302) ends the check in "Failed to download: 302" and
  leaves an empty file at the installer's temp path (`RedirectFails`).
- "No installer found" is an `{error}` answer like every other failure; the
  renderer cannot tell it from the others.
- A failure whose message is empty, and a downloaded release whose tag is
  missing or empty, both end in the "No update found." alert, because the
  renderer tests `result.error` and `result.version` for truthiness
  (`FailureIsAlerted`).

## Model

| member | source | states |
|---|---|---|
| `Text.TrimStart` | renderer.js:46 | the result is the suffix of the input left after removing the longest run of whitespace at the front; it starts with a non-whitespace character or is empty |
| `Text.TrimEnd` | renderer.js:46 | the result is the prefix left after removing the longest run of whitespace at the end; it ends with a non-whitespace character or is empty |
| `Text.Trim` | MaseplWeb.py:160 | the result is a slice of the input with only whitespace before and after it, and neither of its ends is whitespace: exactly the surrounding whitespace is removed |
| `Text.TrimOfTrimmed` | renderer.js:46 | trimming text that has no whitespace at either end leaves it unchanged |
| `Text.TrimIdempotent` | renderer.js:46 | trimming twice equals trimming once |
| `Text.PrefixKeepsTrimmed` | renderer.js:47 | a trimmed string stays trimmed after a prefix starting with a non-whitespace character is put in front of it |
| `Text.DecimalString` | main.js:73 | the decimal text of a status code is non-empty, made of digits, and has a leading zero only for zero |
| `Text.DecimalRoundTrip` | main.js:73 | reading the decimal text back gives the same number, so each status code gives its own message |
| `Renderer.LoadList` | renderer.js:35-36 | a missing key or an empty stored string loads as the empty list; other stored text loads as what it decodes to, and the load fails when it does not decode |
| `Renderer.Recordable` | renderer.js:39 | an empty URL and any URL starting with `about:` are not recorded; a non-empty URL whose first character is not `a` always is |
| `Renderer.Newest` | renderer.js:41 | the result is the last 200 elements of its input, or all of them when there are fewer |
| `Renderer.RecordVisit` | renderer.js:38-41 | an empty or `about:` URL leaves history unchanged; otherwise the new history has length min(old length + 1, 200), is the matching suffix of the old history followed by the new entry, and ends with that entry's URL, title and time |
| `Renderer.NewestAbsorbs` | renderer.js:40-41 | capping, appending and capping again equals appending and capping once |
| `Renderer.RecordVisits` | renderer.js:38-42 | after repeated `saveHistory` calls the history is either the old one or a non-empty history of at most 200 entries |
| `Renderer.EntriesAreRecordable` | renderer.js:39-40 | every entry the visits contribute has a URL that is neither empty nor an `about:` page |
| `Renderer.EntriesOfRecordable` | renderer.js:39-40 | when every visit is recordable, each visit contributes exactly its own entry (URL, title, time), in visit order |
| `Renderer.RecordVisitsKeepsNewest` | renderer.js:38-42 | after any sequence of `saveHistory` calls the history is the newest 200 of the old history followed by the recorded entries, in append order; if nothing was recorded it is the old history |
| `Renderer.SaturatedHistory` | renderer.js:40-41 | after at least 200 recorded visits the history has exactly 200 entries: the 200 most recent, oldest first |
| `Renderer.TitleOr` | renderer.js:72 | a non-empty page title is kept; an empty one is replaced by the URL |
| `Renderer.WithBookmark` | renderer.js:70-75 | a URL already bookmarked leaves the list unchanged; a new URL appends exactly one bookmark titled by the page or by its URL; the URL is bookmarked afterwards and URL uniqueness is preserved |
| `Renderer.BookmarkIdempotent` | renderer.js:73 | bookmarking the same URL twice equals bookmarking it once |
| `Renderer.PageStore.constructor` | renderer.js:35-36 | when both lists load, the store holds exactly what `LoadList` gives for the stored history and bookmarks text, with nothing written back |
| `Renderer.PageStore.SaveHistory` | renderer.js:38-43 | history becomes `RecordVisit` of the old one; a history of at most 200 stays at most 200; bookmarks are untouched; the whole new history is written back exactly when the URL was recorded |
| `Renderer.PageStore.AddBookmark` | renderer.js:70-78 | the "Bookmarked!" outcome holds exactly when the URL was not bookmarked; bookmarks become `WithBookmark` of the old ones; uniqueness is preserved; history is untouched; the list is written back only when something was added |
| `Renderer.Reversed` | renderer.js:81 | the copy has the same length and element k is element n-1-k of the original |
| `Renderer.BookmarkLines` | renderer.js:80-92 | the bookmarks modal lists every bookmark once, newest first, each shown by its title or, when that is empty, its URL |
| `Renderer.HistoryLines` | renderer.js:105-117 | the history modal lists every entry once, newest first, with its title or URL and its time |
| `Renderer.NewestShownFirst` | renderer.js:40 | the entry just recorded is the first line of the history modal |
| `Renderer.HasWebScheme` | renderer.js:47 | the test holds exactly when the text begins with one of the expression's alternatives, `http://` or `https://`, with ASCII letters in any case |
| `Renderer.NavigateTarget` | renderer.js:45-48 | the loaded URL always matches `^https?://` case-insensitively and has no surrounding whitespace; it equals the trimmed input exactly when that already matches, and is otherwise `https://` followed by the trimmed input |
| `Renderer.HttpsPrefixed` | renderer.js:47 | `https://` followed by trimmed text matches the scheme pattern and is itself trimmed |
| `Renderer.NavigateIdempotent` | renderer.js:46-47 | normalising an already normalised URL leaves it unchanged |
| `Renderer.NavigateKeepsSchemedUrl` | renderer.js:110-113 | clicking a listed URL that has a web scheme and no surrounding whitespace loads exactly that URL |
| `Renderer.PromptText` | renderer.js:15 | the install prompt begins by announcing the version and ends with the notes followed by the "Download and install now?" question |
| `Renderer.OnUpdateResult` | renderer.js:10-20 | a truthy `error` raises the failure alert with that message, even when a version is present; otherwise a truthy `version` shows the install prompt with the version and notes (or an empty string), and `runUpdater(path)` runs exactly when the user confirms; anything else raises "No update found." |
| `Renderer.ErrorWinsOverVersion` | renderer.js:10-13 | an object with a non-empty error is reported as a failure whatever its version, notes and path |
| `Renderer.ConfirmRunsDownloadedInstaller` | renderer.js:14-16 | when the check downloaded an installer of a release with a non-empty tag, confirming runs the updater on that installer's temp-directory path |
| `Renderer.FailureIsAlerted` | renderer.js:10-19 | a failure with a non-empty message is alerted with it; an empty message, or a ready answer without a truthy version, ends in "No update found." |
| `Updater.AsObject` | main.js:34-41 | an error answer carries only `error`; a ready answer carries version, notes and path and no error |
| `Updater.SelectInstaller` | main.js:35 | the search stops at the first asset whose name ends in `.exe`, every earlier one having a name that does not; or at the first asset without a name (where `find` throws); or finds none when every asset has a non-installer name |
| `Updater.SelectedIsFirst` | main.js:35 | no asset before the selected one is an installer |
| `Updater.TempPath` | main.js:37 | the destination starts with the temp directory, then one separator, then ends with the asset's name |
| `Updater.PlanUpdate` | main.js:31-42 | a rejected fetch answers with its message; a falsy release with "No release found"; a release without `assets` with the TypeError message; no `.exe` asset with "No installer found in release"; a download happens exactly when an installer was selected, to the temp path of that asset's name, from its download URL, carrying the release's tag and body |
| `Updater.DownloadSettles` | main.js:72-77 | the download resolves exactly on status 200; another status rejects with "Failed to download: " and the code; a transport error rejects with its own message |
| `Updater.DownloadedFiles` | main.js:71-77 | the destination exists afterwards exactly when a response arrived: holding the body on 200, empty on another status; a transport error removes it; no other file changes |
| `Updater.CheckForUpdateResult` | main.js:31-43 | the handler answers with version, notes and path exactly when the plan was to download and the download got status 200, and then with the planned release tag, body and temp path; when the plan was an answer, that answer is returned |
| `Updater.ReadyExactlyAfterDownload` | main.js:38-39 | the answer is `{version, notes, path}` exactly when an installer was selected and its download got status 200, and then it is the release's tag and body with the installer's temp path |
| `Updater.RedirectFails` | main.js:72-73 | once a download starts, a 302 response is not followed: the answer is "Failed to download: 302" and the installer's temp path is left as an empty file |
| `Updater.DownloadFailureReported` | main.js:38-42 | once a download starts, a non-200 status or a transport error becomes the `{error}` answer with `downloadFile`'s message |
| `Updater.ReleaseWithoutAssets` | main.js:34-35 | a truthy release without `assets` downloads nothing and answers with the TypeError message, which differs from "No release found" |
| `Updater.OneInstallerScenario` | main.js:31-39 | a `v2.0` release with one asset `app-v2.0.exe` downloads it to the temp directory under that name and answers with `v2.0`, its notes and that path |
| `Updater.Host.constructor` | main.js:1-3 | the main process starts from the given files, with no download, open or quit recorded yet |
| `Updater.Host.DownloadFile` | main.js:69-80 | settles as `DownloadSettles` says, leaves the files as `DownloadedFiles` says, and records one download request for the URL and destination |
| `Updater.Host.CheckForUpdate` | main.js:31-43 | answers `CheckForUpdateResult`; the files and effects change only when an installer was selected, and then by exactly one download to its temp path |
| `Updater.Host.RunUpdater` | main.js:45-48 | records opening the path and then quitting, in that order, and changes no file |
| `QtShell.WithHttpPrefix` | MaseplWeb.py:106-110 | the result starts with `http`; it equals the input exactly when the input starts with `http`, and is otherwise `http://` followed by the input |
| `QtShell.WithHttpPrefixIdempotent` | MaseplWeb.py:108-109 | prefixing twice equals prefixing once |
| `QtShell.HostStartingWithHttpUnprefixed` | MaseplWeb.py:108-109 | `httpbin.org` is left without a scheme, while `example.org` gets `http://` |
| `QtShell.StartPage` | MaseplWeb.py:157-161 | with no file the start page is `https://www.google.com`; with a file it is the file's text with whitespace stripped from both ends |
| `QtShell.StartPageRoundTrip` | MaseplWeb.py:157-169 | a start page entered without trailing whitespace is read back exactly as it was written, prefix included |
| `QtShell.CurrentAfterRemove` | MaseplWeb.py:129 | after a tab is removed the current index still names a tab: it shifts left when an earlier tab went, and when the current tab went it names the tab that took its place, or the last one |
| `QtShell.SimpleBrowser.constructor` | MaseplWeb.py:76 | the window opens with one tab labelled "Start" on the start page, that tab current, and an empty history |
| `QtShell.SimpleBrowser.AddNewTab` | MaseplWeb.py:87-94 | one tab is appended, showing the given URL or else the start page, labelled with the given label or else "Nowa karta", and its index becomes current; nothing else changes |
| `QtShell.SimpleBrowser.CloseTab` | MaseplWeb.py:127-129 | with more than one tab and a valid index that tab is removed and the others keep their order; with one tab, or an index naming no tab, nothing changes; at least one tab always remains |
| `QtShell.SimpleBrowser.NavigateToUrl` | MaseplWeb.py:106-110 | only the current tab's URL changes, to the prefixed address-bar text, which starts with `http` |
| `QtShell.SimpleBrowser.NavigateHome` | MaseplWeb.py:103-104 | only the current tab's URL changes, to the start page |
| `QtShell.SimpleBrowser.SaveToHistory` | MaseplWeb.py:119-121 | the URL is appended at the end, with no cap and no deduplication |
| `QtShell.SimpleBrowser.SetStartPage` | MaseplWeb.py:163-170 | the start-page file is written, with the prefixed URL, exactly when the dialog was accepted with non-empty text; nothing else changes |

## Left out

- Window, widget and DOM construction, styling, the dark palette, the credits window, the global shortcut, and showing or hiding the modals and the history dock: these are user interface only.
- The HTTPS requests themselves, the request headers, chunk accumulation and stream piping: what the fetch and the download settle to are inputs.
- JSON parsing: a decoder is a parameter of `LoadList`, and serialising a list on `setItem` is recorded as the list itself. Stored JSON that is valid but not an array (`null`, `{}`) parses without error in the source and only fails later, at `history.push` or `bookmarks.some`, while the rest of the renderer script still runs; a decoder returning `None` for it makes the load fail at once instead, so that case is not modelled faithfully.
- localStorage and file input and output: stored text is an optional string, and the start-page file is its text content. Python's newline translation in text mode is not modelled.
- The timestamp `new Date().toLocaleString()`: it is an opaque string input.
- Async/await ordering and the update button's disabling while a check runs: the flow is sequential in the model, and re-entrancy is a concurrency concern.
- `shell.openPath`, `app.quit` and the Qt download accept/cancel dialog: foreign calls. The first two are recorded as an ordered effect trace; the download dialog is not modelled.
- The Electron window and app lifecycle and the userData path setup.
- The `alert` and `QMessageBox` notices: `AddBookmark` returns whether "Bookmarked!" is shown; the Qt message boxes are not modelled.
- QtShell.StartPageRoundTrip: holds only for text the locale encoding can write; `set_start_page` writes in that encoding (MaseplWeb.py:168-169), and an unencodable character raises after the file was truncated. Text is a sequence of characters here and encodings are not modelled.
- Updater.Host.DownloadFile: the write stream has no `error` listener (main.js:71), so a failure to open the destination is an uncaught exception (Electron shows an error dialog and the main process keeps running). On a 200 response the promise then never settles, because the piped body goes into a destroyed stream and `finish` never fires; on another status or a transport error it still rejects as modelled, though the destination was never created. The model's three outcomes do not express the open failure, and file-system failures are not modelled. `TransportError` stands only for an error reported on the request object (main.js:76); an error reported on the response after a 200 started streaming (a connection closed mid-body) has no listener, so the partly written file stays and the promise never settles, which the model does not express either.
- Updater.TempPath: does not model `path.join`'s normalisation of `..` segments and doubled separators; it joins with a backslash, the Windows separator.
- The HTML the modals build from unescaped titles and URLs: the lines are modelled as plain data.
- JSON values of unexpected types in the release (a non-array `assets`, a non-string `tag_name` or `name`, a missing download URL): assets and fields are either present with the expected type or absent.
- The current-tab rule in `QtShell.CurrentAfterRemove` is Qt's default removal behaviour, not code of this repository.
- QtShell.SimpleBrowser.constructor: models the state `__init__` would reach if MaseplWeb.py:36 did not raise. As written, `Qt.QSize` looks up `QSize` on the `Qt` namespace imported at MaseplWeb.py:9, which has no such member, so `SimpleBrowser()` raises AttributeError before any tab exists and none of the `SimpleBrowser` methods is reachable.
- Dragging tabs into a new order (`setMovable(True)`, MaseplWeb.py:23) is not modelled: in the model the tab list changes only through `AddNewTab` and `CloseTab`, so which tab an index names for `close_tab`, and which tab is current, is not affected by reordering.
- QtShell.SimpleBrowser.AddNewTab: takes the URL and caption as arguments. The "new tab" button (MaseplWeb.py:60-61) is connected to `triggered`, which passes `checked=False` as `qurl`; `browser.setUrl(False)` (MaseplWeb.py:92) then raises TypeError, so the button never reaches the start-page branch the model describes.
- `update_url_bar_and_title` and `toggle_history` only mirror state into widgets and are not modelled.
