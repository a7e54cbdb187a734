/**
 * The PyQt browser (MaseplWeb.py): its address-bar prefixing, the start page
 * kept in `startpage.txt`, and the `SimpleBrowser` state that its slots
 * change: the open tabs with the current one, and the history list.
 *
 * Widgets are reduced to what these slots read and write: a tab is its URL
 * and label, the history dock is the list of its items, and the start-page
 * file is its text content, `None` when the file does not exist.
 */
module QtShell {
  import opened Wrappers
  import opened Text

  const DefaultStartPage := "https://www.google.com"
  const StartTabLabel := "Start"
  /** The label `add_new_tab` gives when none is passed. */
  const NewTabLabel := "Nowa karta"

  /** The characters Python's `str.strip()` removes: those for which `str.isspace()` holds. */
  const PyWhitespace: set<char> := {
    '\t', '\n', '\U{000B}', '\U{000C}', '\r', '\U{001C}', '\U{001D}', '\U{001E}', '\U{001F}',
    ' ', '\U{0085}', '\U{00A0}', '\U{1680}',
    '\U{2000}', '\U{2001}', '\U{2002}', '\U{2003}', '\U{2004}', '\U{2005}',
    '\U{2006}', '\U{2007}', '\U{2008}', '\U{2009}', '\U{200A}',
    '\U{2028}', '\U{2029}', '\U{202F}', '\U{205F}', '\U{3000}'
  }

  /**
   * The rule `navigate_to_url` and `set_start_page` share: prefix `http://`
   * exactly when the text does not start with `http` (case-sensitive, so
   * `httpbin.org` is left as it is and `HTTPS://x` is prefixed).
   */
  function WithHttpPrefix(url: string): (r: string)
    ensures StartsWith(r, "http")
    ensures (r == url) == StartsWith(url, "http")
    ensures r != url ==> r == "http://" + url
  {
    if StartsWith(url, "http") then url
    else
      var r := "http://" + url;
      assert r[..4] == "http";
      r
  }

  /** Prefixing twice is prefixing once. */
  lemma WithHttpPrefixIdempotent(url: string)
    ensures WithHttpPrefix(WithHttpPrefix(url)) == WithHttpPrefix(url)
  {
  }

  /** Text that merely begins with the letters `http` counts as having a scheme. */
  lemma HostStartingWithHttpUnprefixed()
    ensures WithHttpPrefix("httpbin.org") == "httpbin.org"
    ensures WithHttpPrefix("example.org") == "http://example.org"
  {
    assert "httpbin.org"[..4] == "http";
    assert "example.org"[..4][0] == 'e';
  }

  /** `load_start_page`: the file's text with surrounding whitespace stripped, or the default page when there is no file. */
  function StartPage(file: Option<string>): (r: string)
    ensures file.None? ==> r == DefaultStartPage
    ensures file.Some? ==> r == Trim(file.value, PyWhitespace)
    ensures Trimmed(r, PyWhitespace)
  {
    match file
    case None =>
      assert DefaultStartPage[0] == 'h' && DefaultStartPage[|DefaultStartPage| - 1] == 'm';
      DefaultStartPage
    case Some(text) => Trim(text, PyWhitespace)
  }

  /**
   * What `set_start_page` writes is what `load_start_page` reads back, as
   * long as the entered text does not end in whitespace (stripping would
   * remove it).
   */
  lemma {:induction false} StartPageRoundTrip(url: string)
    requires url != "" && url[|url| - 1] !in PyWhitespace
    ensures StartPage(Some(WithHttpPrefix(url))) == WithHttpPrefix(url)
  {
    var written := WithHttpPrefix(url);
    assert written[|written| - 1] == url[|url| - 1];
    assert written[0] == 'h' && 'h' !in PyWhitespace;
    TrimOfTrimmed(written, PyWhitespace);
  }

  datatype Tab = Tab(url: string, caption: string)

  /**
   * QTabBar's default rule (`SelectRightTab`) for the current index after
   * a tab is removed: removing a tab left of the current one shifts it
   * left; removing the current tab selects the tab that moves into its
   * place, or the new last tab when the last one went.
   */
  function CurrentAfterRemove(current: nat, removed: nat, remaining: nat): (c: nat)
    requires current <= remaining && removed <= remaining && remaining > 0
    ensures c < remaining
    ensures removed < current ==> c == current - 1
    ensures removed > current ==> c == current
    ensures removed == current ==> c == if removed < remaining then removed else remaining - 1
  {
    if removed < current then current - 1
    else if removed > current then current
    else if removed < remaining then removed
    else remaining - 1
  }

  class SimpleBrowser {
    var tabs: seq<Tab>
    var current: nat
    var history: seq<string>
    var startPageFile: Option<string>

    /** There is always a tab, and the current index points at one. */
    predicate Valid()
      reads this
    {
      0 < |tabs| && current < |tabs|
    }

    /** `__init__`: one tab labelled "Start" showing the start page, and an empty history. */
    constructor (startPageFile: Option<string>)
      ensures Valid()
      ensures tabs == [Tab(StartPage(startPageFile), StartTabLabel)] && current == 0
      ensures history == [] && this.startPageFile == startPageFile
    {
      this.startPageFile := startPageFile;
      tabs := [Tab(StartPage(startPageFile), StartTabLabel)];
      current := 0;
      history := [];
    }

    /**
     * `add_new_tab(qurl, label)`: append a tab (showing the start page when
     * no URL is given, labelled "Nowa karta" when no label is) and make it current.
     */
    method AddNewTab(url: Option<string>, caption: Option<string>)
      modifies this
      ensures tabs == old(tabs) + [Tab(if url.None? then StartPage(startPageFile) else url.value,
                                       if caption.None? then NewTabLabel else caption.value)]
      ensures current == old(|tabs|) && current == |tabs| - 1
      ensures Valid()
      ensures history == old(history) && startPageFile == old(startPageFile)
    {
      var target := if url.None? then StartPage(startPageFile) else url.value;
      var text := if caption.None? then NewTabLabel else caption.value;
      var i := |tabs|;
      tabs := tabs + [Tab(target, text)];
      current := i;
    }

    /** `close_tab(index)`: remove the tab only while more than one is open; an index with no tab removes nothing. */
    method CloseTab(index: int)
      requires Valid()
      modifies this
      ensures Valid()
      ensures old(|tabs|) > 1 && 0 <= index < old(|tabs|) ==>
                tabs == old(tabs)[..index] + old(tabs)[index + 1..] &&
                current == CurrentAfterRemove(old(current), index, |tabs|)
      ensures !(old(|tabs|) > 1 && 0 <= index < old(|tabs|)) ==> tabs == old(tabs) && current == old(current)
      ensures |tabs| >= 1
      ensures history == old(history) && startPageFile == old(startPageFile)
    {
      if |tabs| > 1 {
        if 0 <= index < |tabs| {
          tabs := tabs[..index] + tabs[index + 1..];
          current := CurrentAfterRemove(current, index, |tabs|);
        }
      }
    }

    /** `navigate_to_url`: load the address-bar text, prefixed by `WithHttpPrefix`, in the current tab. */
    method NavigateToUrl(text: string)
      requires Valid()
      modifies this
      ensures Valid()
      ensures tabs == old(tabs)[old(current) := Tab(WithHttpPrefix(text), old(tabs)[old(current)].caption)]
      ensures StartsWith(tabs[current].url, "http")
      ensures current == old(current) && history == old(history) && startPageFile == old(startPageFile)
    {
      var url := text;
      if !StartsWith(url, "http") {
        url := "http://" + url;
      }
      tabs := tabs[current := Tab(url, tabs[current].caption)];
    }

    /** `navigate_home`: load the start page in the current tab. */
    method NavigateHome()
      requires Valid()
      modifies this
      ensures Valid()
      ensures tabs == old(tabs)[old(current) := Tab(StartPage(startPageFile), old(tabs)[old(current)].caption)]
      ensures current == old(current) && history == old(history) && startPageFile == old(startPageFile)
    {
      tabs := tabs[current := Tab(StartPage(startPageFile), tabs[current].caption)];
    }

    /** `save_to_history`: append the loaded URL, with no cap and no deduplication. */
    method SaveToHistory(url: string)
      modifies this
      ensures history == old(history) + [url]
      ensures tabs == old(tabs) && current == old(current) && startPageFile == old(startPageFile)
    {
      history := history + [url];
    }

    /**
     * `set_start_page`, given what the input dialog returned: only an
     * accepted, non-empty entry is written, prefixed by `WithHttpPrefix`.
     */
    method SetStartPage(text: string, ok: bool)
      modifies this
      ensures ok && text != "" ==> startPageFile == Some(WithHttpPrefix(text))
      ensures !(ok && text != "") ==> startPageFile == old(startPageFile)
      ensures tabs == old(tabs) && current == old(current) && history == old(history)
    {
      if ok && text != "" {
        var url := text;
        if !StartsWith(url, "http") {
          url := "http://" + url;
        }
        startPageFile := Some(url);
      }
    }
  }
}
