/**
 * The renderer of the Electron shell (renderer.js): the browsing history
 * and bookmark lists kept in localStorage, the address-bar normaliser of
 * `navigate`, the newest-first listings shown in the two modals, and what the
 * update button does with the main process's answer.
 *
 * localStorage is abstracted: what is read from it is an optional string
 * decoded by a caller-supplied JSON decoder, and every `setItem` is recorded
 * as a full rewrite of one list in `PageStore.writes`.
 */
module Renderer {
  import opened Wrappers
  import opened Text
  import opened Updater

  /** How many history entries `saveHistory` keeps (`history.slice(-200)`). */
  const HistoryCap: nat := 200

  datatype HistoryEntry = HistoryEntry(url: string, title: string, time: string)
  datatype Bookmark = Bookmark(url: string, title: string)

  /** One `localStorage.setItem`, which replaces the whole stored list. */
  datatype StorageWrite = HistoryWritten(history: seq<HistoryEntry>) | BookmarksWritten(bookmarks: seq<Bookmark>)

  // ---------------------------------------------------------------------------
  // Initial load: `JSON.parse(localStorage.getItem(key) || '[]')`

  /**
   * The list loaded for one key. A missing key and an empty stored string
   * both fall back to the text `[]`; anything else is decoded as it is, and
   * text that does not decode makes the load fail (`None`): there is no
   * fallback for malformed JSON.
   */
  function LoadList<T>(stored: Option<string>, parse: string -> Option<seq<T>>): (r: Option<seq<T>>)
    requires parse("[]") == Some([])
    ensures stored.None? ==> r == Some([])
    ensures stored == Some("") ==> r == Some([])
    ensures stored.Some? && stored.value != "" ==> (r.None? <==> parse(stored.value).None?)
    ensures stored.Some? && stored.value != "" && r.Some? ==> parse(stored.value) == r
  {
    var text := if stored.None? || stored.value == "" then "[]" else stored.value;
    parse(text)
  }

  // ---------------------------------------------------------------------------
  // History: `saveHistory(url, title)`

  /** `saveHistory` records a URL unless it is empty or an `about:` page. */
  predicate Recordable(url: string)
    ensures url == "" ==> !Recordable(url)
    ensures |url| >= 6 && url[..6] == "about:" ==> !Recordable(url)
    ensures url != "" && url[0] != 'a' ==> Recordable(url)
  {
    url != "" && !StartsWith(url, "about:")
  }

  /** The last `HistoryCap` elements of `s` (all of `s` when it is shorter). */
  function Newest<T>(s: seq<T>): (r: seq<T>)
    ensures |r| == if |s| < HistoryCap then |s| else HistoryCap
    ensures r == s[|s| - |r|..]
  {
    if |s| > HistoryCap then s[|s| - HistoryCap..] else s
  }

  /** The history after `saveHistory(url, title)` at time `time`. */
  function RecordVisit(history: seq<HistoryEntry>, url: string, title: string, time: string): (r: seq<HistoryEntry>)
    ensures !Recordable(url) ==> r == history
    ensures Recordable(url) ==>
              |r| == (if |history| + 1 < HistoryCap then |history| + 1 else HistoryCap) &&
              r == (history + [HistoryEntry(url, title, time)])[|history| + 1 - |r|..] &&
              r[|r| - 1] == HistoryEntry(url, title, time)
  {
    if !Recordable(url) then history
    else Newest(history + [HistoryEntry(url, title, time)])
  }

  /** Keeping the newest entries, appending, and keeping the newest again is appending and keeping the newest once. */
  lemma {:induction false} NewestAbsorbs<T>(s: seq<T>, t: seq<T>)
    ensures Newest(Newest(s) + t) == Newest(s + t)
  {
    if |s| > HistoryCap {
      var a, b := Newest(Newest(s) + t), Newest(s + t);
      assert |a| == |b|;
      forall k | 0 <= k < |a| ensures a[k] == b[k] {
        var n := |Newest(s) + t| - |a|;
        assert a[k] == (Newest(s) + t)[n + k];
        assert b[k] == (s + t)[|s + t| - |b| + k];
        if n + k < HistoryCap {
          assert (Newest(s) + t)[n + k] == s[|s| - HistoryCap + n + k];
        }
      }
    }
  }

  /** A navigation as the history sees it. */
  datatype Visit = Visit(url: string, title: string, time: string)

  /** The history after `saveHistory` was called once per visit, in order. */
  function RecordVisits(history: seq<HistoryEntry>, visits: seq<Visit>): (r: seq<HistoryEntry>)
    ensures r == history || 0 < |r| <= HistoryCap
    decreases |visits|
  {
    if visits == [] then history
    else RecordVisits(RecordVisit(history, visits[0].url, visits[0].title, visits[0].time), visits[1..])
  }

  /** The entries the visits contribute: one per recordable visit, in visit order. */
  function EntriesOf(visits: seq<Visit>): (r: seq<HistoryEntry>)
  {
    if visits == [] then []
    else
      (if Recordable(visits[0].url) then [HistoryEntry(visits[0].url, visits[0].title, visits[0].time)] else [])
      + EntriesOf(visits[1..])
  }

  /** Only recordable visits contribute entries. */
  lemma {:induction false} EntriesAreRecordable(visits: seq<Visit>)
    ensures forall k :: 0 <= k < |EntriesOf(visits)| ==> Recordable(EntriesOf(visits)[k].url)
    decreases |visits|
  {
    if visits != [] {
      EntriesAreRecordable(visits[1..]);
    }
  }

  /** When every visit is recordable, each contributes its own entry, in visit order. */
  lemma {:induction false} EntriesOfRecordable(visits: seq<Visit>)
    requires forall k :: 0 <= k < |visits| ==> Recordable(visits[k].url)
    ensures |EntriesOf(visits)| == |visits|
    ensures forall k :: 0 <= k < |visits| ==>
              EntriesOf(visits)[k] == HistoryEntry(visits[k].url, visits[k].title, visits[k].time)
    decreases |visits|
  {
    if visits != [] {
      EntriesOfRecordable(visits[1..]);
      assert Recordable(visits[0].url);
    }
  }

  /**
   * However many times `saveHistory` runs, the history holds the newest
   * `HistoryCap` entries of the old history followed by the recorded visits,
   * oldest evicted first, in append order.
   */
  lemma {:induction false} RecordVisitsKeepsNewest(history: seq<HistoryEntry>, visits: seq<Visit>)
    ensures RecordVisits(history, visits) ==
              if EntriesOf(visits) == [] then history else Newest(history + EntriesOf(visits))
    decreases |visits|
  {
    if visits != [] {
      var v, rest := visits[0], visits[1..];
      var next := RecordVisit(history, v.url, v.title, v.time);
      RecordVisitsKeepsNewest(next, rest);
      if Recordable(v.url) {
        var e := HistoryEntry(v.url, v.title, v.time);
        assert EntriesOf(visits) == [e] + EntriesOf(rest);
        assert next == Newest(history + [e]);
        RecordedStep(history, e, EntriesOf(rest));
      } else {
        assert EntriesOf(visits) == EntriesOf(rest);
      }
    }
  }

  /** One recorded visit followed by the entries `later`, as `RecordVisitsKeepsNewest` needs it. */
  lemma RecordedStep(history: seq<HistoryEntry>, e: HistoryEntry, later: seq<HistoryEntry>)
    ensures (if later == [] then Newest(history + [e]) else Newest(Newest(history + [e]) + later)) ==
            Newest(history + ([e] + later))
  {
    if later == [] {
      assert [e] + later == [e];
    } else {
      NewestAbsorbs(history + [e], later);
      assert history + [e] + later == history + ([e] + later);
    }
  }

  /** After at least `HistoryCap` recorded visits the history is exactly the newest `HistoryCap` of them. */
  lemma SaturatedHistory(history: seq<HistoryEntry>, visits: seq<Visit>)
    requires |EntriesOf(visits)| >= HistoryCap
    ensures |RecordVisits(history, visits)| == HistoryCap
    ensures RecordVisits(history, visits) == EntriesOf(visits)[|EntriesOf(visits)| - HistoryCap..]
  {
    var es := EntriesOf(visits);
    assert RecordVisits(history, visits) == Newest(history + es) by {
      RecordVisitsKeepsNewest(history, visits);
      assert es != [];
    }
    assert Newest(history + es) == es[|es| - HistoryCap..] by {
      NewestOfLongTail(history, es);
    }
  }

  /** When what is appended alone fills the cap, nothing of what came before survives. */
  lemma NewestOfLongTail<T>(s: seq<T>, t: seq<T>)
    requires |t| >= HistoryCap
    ensures Newest(s + t) == t[|t| - HistoryCap..]
  {
    var a, b := Newest(s + t), t[|t| - HistoryCap..];
    forall k | 0 <= k < HistoryCap ensures a[k] == b[k] {
      assert a[k] == (s + t)[|s| + |t| - HistoryCap + k];
    }
  }

  // ---------------------------------------------------------------------------
  // Bookmarks: the bookmark-page handler

  predicate HasUrl(bookmarks: seq<Bookmark>, url: string) {
    exists k :: 0 <= k < |bookmarks| && bookmarks[k].url == url
  }

  /** No two bookmarks share a URL. */
  predicate UniqueUrls(bookmarks: seq<Bookmark>) {
    forall i, j :: 0 <= i < j < |bookmarks| ==> bookmarks[i].url != bookmarks[j].url
  }

  /** `webview.getTitle() || url`. */
  function TitleOr(title: string, url: string): (r: string)
    ensures r != "" || url == ""
    ensures title != "" ==> r == title
    ensures title == "" ==> r == url
  {
    if title != "" then title else url
  }

  /** The bookmarks after bookmarking the page at `url` whose title is `pageTitle`. */
  function WithBookmark(bookmarks: seq<Bookmark>, url: string, pageTitle: string): (r: seq<Bookmark>)
    ensures HasUrl(bookmarks, url) ==> r == bookmarks
    ensures !HasUrl(bookmarks, url) ==> r == bookmarks + [Bookmark(url, TitleOr(pageTitle, url))]
    ensures HasUrl(r, url)
    ensures UniqueUrls(bookmarks) ==> UniqueUrls(r)
  {
    if HasUrl(bookmarks, url) then bookmarks
    else
      var r := bookmarks + [Bookmark(url, TitleOr(pageTitle, url))];
      assert r[|bookmarks|].url == url;
      r
  }

  /** Bookmarking a page twice is bookmarking it once. */
  lemma BookmarkIdempotent(bookmarks: seq<Bookmark>, url: string, title1: string, title2: string)
    ensures WithBookmark(WithBookmark(bookmarks, url, title1), url, title2) == WithBookmark(bookmarks, url, title1)
  {
  }

  // ---------------------------------------------------------------------------
  // The store: the two module-level lists and what has been written back

  class PageStore {
    var history: seq<HistoryEntry>
    var bookmarks: seq<Bookmark>
    var writes: seq<StorageWrite>

    /**
     * The store right after the initial load of both lists from their stored
     * texts; a load that fails throws in the source before the store exists.
     */
    constructor (storedHistory: Option<string>, parseHistory: string -> Option<seq<HistoryEntry>>,
                 storedBookmarks: Option<string>, parseBookmarks: string -> Option<seq<Bookmark>>)
      requires parseHistory("[]") == Some([]) && parseBookmarks("[]") == Some([])
      requires LoadList(storedHistory, parseHistory).Some? && LoadList(storedBookmarks, parseBookmarks).Some?
      ensures history == LoadList(storedHistory, parseHistory).value
      ensures bookmarks == LoadList(storedBookmarks, parseBookmarks).value
      ensures writes == []
    {
      history := LoadList(storedHistory, parseHistory).value;
      bookmarks := LoadList(storedBookmarks, parseBookmarks).value;
      writes := [];
    }

    /**
     * `saveHistory(url, title)`: a recordable URL is appended with its title
     * and time, the oldest entries beyond `HistoryCap` are dropped, and the
     * whole list is written back; any other URL changes nothing.
     */
    method SaveHistory(url: string, title: string, time: string)
      modifies this
      ensures history == RecordVisit(old(history), url, title, time)
      ensures old(|history|) <= HistoryCap ==> |history| <= HistoryCap
      ensures bookmarks == old(bookmarks)
      ensures writes == if Recordable(url) then old(writes) + [HistoryWritten(history)] else old(writes)
    {
      if url == "" || StartsWith(url, "about:") {
        return;
      }
      history := history + [HistoryEntry(url, title, time)];
      if |history| > HistoryCap {
        history := history[|history| - HistoryCap..];
      }
      writes := writes + [HistoryWritten(history)];
    }

    /**
     * The bookmark-page handler: a page whose URL is not yet bookmarked is
     * appended (titled by its URL when it has no title) and the list written
     * back; `added` is whether the "Bookmarked!" alert shows.
     */
    method AddBookmark(url: string, pageTitle: string) returns (added: bool)
      modifies this
      ensures added == !HasUrl(old(bookmarks), url)
      ensures bookmarks == WithBookmark(old(bookmarks), url, pageTitle)
      ensures UniqueUrls(old(bookmarks)) ==> UniqueUrls(bookmarks)
      ensures history == old(history)
      ensures writes == if added then old(writes) + [BookmarksWritten(bookmarks)] else old(writes)
    {
      var title := if pageTitle != "" then pageTitle else url;
      added := !HasUrl(bookmarks, url);
      if added {
        bookmarks := bookmarks + [Bookmark(url, title)];
        writes := writes + [BookmarksWritten(bookmarks)];
      }
    }
  }

  // ---------------------------------------------------------------------------
  // The modals: `list.slice().reverse()`, newest first

  function Reversed<T>(s: seq<T>): (r: seq<T>)
    ensures |r| == |s|
    ensures forall k :: 0 <= k < |s| ==> r[k] == s[|s| - 1 - k]
  {
    if s == [] then [] else [s[|s| - 1]] + Reversed(s[..|s| - 1])
  }

  /** One line of a modal: the link text (title, or the URL when the title is empty), its URL, and the time shown beside history links. */
  datatype Line = Line(text: string, url: string, time: Option<string>)

  function BookmarkLines(bookmarks: seq<Bookmark>): (r: seq<Line>)
    ensures |r| == |bookmarks|
    ensures forall k :: 0 <= k < |r| ==>
              var b := bookmarks[|bookmarks| - 1 - k];
              r[k] == Line(TitleOr(b.title, b.url), b.url, None)
  {
    var shown := Reversed(bookmarks);
    seq(|shown|, k requires 0 <= k < |shown| => Line(TitleOr(shown[k].title, shown[k].url), shown[k].url, None))
  }

  function HistoryLines(history: seq<HistoryEntry>): (r: seq<Line>)
    ensures |r| == |history|
    ensures forall k :: 0 <= k < |r| ==>
              var e := history[|history| - 1 - k];
              r[k] == Line(TitleOr(e.title, e.url), e.url, Some(e.time))
  {
    var shown := Reversed(history);
    seq(|shown|, k requires 0 <= k < |shown| => Line(TitleOr(shown[k].title, shown[k].url), shown[k].url, Some(shown[k].time)))
  }

  /** The entry just recorded is the first line of the history modal. */
  lemma NewestShownFirst(history: seq<HistoryEntry>, url: string, title: string, time: string)
    requires Recordable(url)
    ensures HistoryLines(RecordVisit(history, url, title, time))[0] == Line(TitleOr(title, url), url, Some(time))
  {
  }

  // ---------------------------------------------------------------------------
  // The address bar: `navigate`

  /** The characters `String.prototype.trim` removes: ECMAScript WhiteSpace and LineTerminator. */
  const JsWhitespace: set<char> := {
    '\t', '\n', '\U{000B}', '\U{000C}', '\r', ' ', '\U{00A0}', '\U{1680}',
    '\U{2000}', '\U{2001}', '\U{2002}', '\U{2003}', '\U{2004}', '\U{2005}',
    '\U{2006}', '\U{2007}', '\U{2008}', '\U{2009}', '\U{200A}',
    '\U{2028}', '\U{2029}', '\U{202F}', '\U{205F}', '\U{3000}', '\U{FEFF}'
  }

  /** `c` matches the ASCII letter `lower` under the regular expression's `i` flag. */
  predicate LetterCi(c: char, lower: char)
    requires 'a' <= lower <= 'z'
  {
    c == lower || c as int == lower as int - 32
  }

  /** `s` begins with `pattern` when ASCII letters are compared without regard to case. */
  predicate StartsWithCi(s: string, pattern: string) {
    |pattern| <= |s| &&
    forall k :: 0 <= k < |pattern| ==>
      s[k] == pattern[k] || ('a' <= pattern[k] <= 'z' && s[k] as int == pattern[k] as int - 32)
  }

  /**
   * `/^https?:\/\//i.test(s)`: the text begins with one of the expression's
   * two alternatives, `http://` or `https://`, in any letter case.
   */
  predicate HasWebScheme(s: string)
    ensures HasWebScheme(s) <==> StartsWithCi(s, "http://") || StartsWithCi(s, "https://")
  {
    |s| >= 4 && LetterCi(s[0], 'h') && LetterCi(s[1], 't') && LetterCi(s[2], 't') && LetterCi(s[3], 'p') &&
    StartsWith(if |s| > 4 && LetterCi(s[4], 's') then s[5..] else s[4..], "://")
  }

  /**
   * The URL `navigate` loads for the address-bar text `input`: the trimmed
   * text, prefixed with `https://` exactly when it does not already start
   * with `http://` or `https://` in any letter case.
   */
  function NavigateTarget(input: string): (r: string)
    ensures HasWebScheme(r)
    ensures Trimmed(r, JsWhitespace)
    ensures (r == Trim(input, JsWhitespace)) == HasWebScheme(Trim(input, JsWhitespace))
    ensures r != Trim(input, JsWhitespace) ==> r == "https://" + Trim(input, JsWhitespace)
  {
    var url := Trim(input, JsWhitespace);
    if HasWebScheme(url) then url
    else
      HttpsPrefixed(url);
      "https://" + url
  }

  /** Prefixing `https://` to trimmed text gives a trimmed URL with a web scheme. */
  lemma HttpsPrefixed(url: string)
    requires Trimmed(url, JsWhitespace)
    ensures HasWebScheme("https://" + url) && Trimmed("https://" + url, JsWhitespace)
  {
    var r := "https://" + url;
    assert r[..4] == "http" && r[5..][..3] == "://";
    assert 'h' !in JsWhitespace && '/' !in JsWhitespace;
    PrefixKeepsTrimmed("https://", url, JsWhitespace);
  }

  /** Navigating to the URL `navigate` produced loads that same URL: normalisation is idempotent. */
  lemma NavigateIdempotent(input: string)
    ensures NavigateTarget(NavigateTarget(input)) == NavigateTarget(input)
  {
    TrimOfTrimmed(NavigateTarget(input), JsWhitespace);
  }

  /** Clicking a listed URL that already has a web scheme and no surrounding whitespace loads it unchanged. */
  lemma NavigateKeepsSchemedUrl(url: string)
    requires HasWebScheme(url) && Trimmed(url, JsWhitespace)
    ensures NavigateTarget(url) == url
  {
    TrimOfTrimmed(url, JsWhitespace);
  }

  // ---------------------------------------------------------------------------
  // The update button: what it does with `checkForUpdate()`'s answer

  const FailurePrefix := "Update check failed: "
  const NoUpdateText := "No update found."

  /** A property that is present and a non-empty string, as JavaScript's `&&` tests it. */
  predicate Truthy(v: Option<string>) {
    v.Some? && v.value != ""
  }

  function PromptText(version: string, notes: string): (r: string)
    ensures StartsWith(r, "A new version (" + version + ") is available!")
    ensures EndsWith(r, notes + "\n\nDownload and install now?")
  {
    "A new version (" + version + ") is available!\n\n" + notes + "\n\nDownload and install now?"
  }

  /** What the user sees: an alert, or the install prompt, declined or confirmed (then `runUpdater(path)` is called). */
  datatype Reaction = Alerted(text: string) | Declined(prompt: string) | InstallConfirmed(prompt: string, path: Option<string>)

  /** The update button's handler once the answer arrived; `confirmed` is the user's answer to the prompt. */
  function OnUpdateResult(result: ResultObject, confirmed: bool): (r: Reaction)
    ensures Truthy(result.error) ==> r == Alerted(FailurePrefix + result.error.value)
    ensures !Truthy(result.error) && !Truthy(result.version) ==> r == Alerted(NoUpdateText)
    ensures r.Declined? || r.InstallConfirmed? <==> !Truthy(result.error) && Truthy(result.version)
    ensures r.InstallConfirmed? <==> !Truthy(result.error) && Truthy(result.version) && confirmed
    ensures r.InstallConfirmed? ==> r.path == result.path
    ensures (r.Declined? || r.InstallConfirmed?) ==>
              r.prompt == PromptText(result.version.value, if Truthy(result.notes) then result.notes.value else "")
  {
    if Truthy(result.error) then Alerted(FailurePrefix + result.error.value)
    else if Truthy(result.version) then
      var prompt := PromptText(result.version.value, if Truthy(result.notes) then result.notes.value else "");
      if confirmed then InstallConfirmed(prompt, result.path) else Declined(prompt)
    else Alerted(NoUpdateText)
  }

  /** An error is reported even when the object also carries a version. */
  lemma ErrorWinsOverVersion(error: string, version: Option<string>, notes: Option<string>, path: Option<string>, confirmed: bool)
    requires error != ""
    ensures OnUpdateResult(ResultObject(Some(error), version, notes, path), confirmed) == Alerted(FailurePrefix + error)
  {
  }

  /**
   * End to end: when the check downloaded an installer for a release with
   * a non-empty tag, confirming the prompt runs the updater on the
   * downloaded file's path in the temp directory.
   */
  lemma ConfirmRunsDownloadedInstaller(fetched: FetchOutcome, tempDir: string, response: DownloadResponse)
    requires CheckForUpdateResult(fetched, tempDir, response).Ready?
    requires Truthy(CheckForUpdateResult(fetched, tempDir, response).version)
    ensures HasAssets(fetched) && SelectInstaller(Assets(fetched)).Selected?
    ensures var a := Assets(fetched)[SelectInstaller(Assets(fetched)).index];
            OnUpdateResult(AsObject(CheckForUpdateResult(fetched, tempDir, response)), true).InstallConfirmed? &&
            OnUpdateResult(AsObject(CheckForUpdateResult(fetched, tempDir, response)), true).path == Some(TempPath(tempDir, a.name.value))
  {
    ReadyExactlyAfterDownload(fetched, tempDir, response);
  }

  /**
   * End to end: every failure of the check with a non-empty message is
   * alerted with that message; one with an empty message, like a release
   * whose tag is missing or empty, ends in "No update found.".
   */
  lemma FailureIsAlerted(result: UpdateResult, confirmed: bool)
    ensures result.Failure? && result.message != "" ==>
              OnUpdateResult(AsObject(result), confirmed) == Alerted(FailurePrefix + result.message)
    ensures result.Failure? && result.message == "" ==>
              OnUpdateResult(AsObject(result), confirmed) == Alerted(NoUpdateText)
    ensures result.Ready? && !Truthy(result.version) ==>
              OnUpdateResult(AsObject(result), confirmed) == Alerted(NoUpdateText)
  {
  }
}
