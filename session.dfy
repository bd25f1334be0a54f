/** The session lifecycle of the Stockbit downloader: a browser session that
    restores a saved login when the state file exists, a one-time manual login
    that writes that file, the scrape that exports the "Top Stock" table, and
    a teardown that releases only what was acquired.

    The browser engine is represented by small objects that remember only what
    the downloader's decisions depend on (whether they are still running or
    open, which saved state a context was built from, where a page points).
    The download directory is an object holding the two files the downloader
    reads and writes. */
module Session {
  import opened Wrappers
  import opened TopStock

  /** A saved browser storage state (cookies and per-origin storage). The
      downloader never looks inside it. */
  datatype AuthState = AuthState(cookies: seq<string>, origins: seq<string>)

  /** The storage state of a context built without a saved state. */
  const NoAuth := AuthState([], [])

  const LoginUrl := "https://stockbit.com/#/login"
  const HomeUrl := "https://stockbit.com/"

  /** The ways a downloader operation can fail. */
  datatype Error =
    | LaunchFailed      // the browser could not be launched
    | NotStarted        // the page is used before `StartBrowser` created it
    | Closed            // the page is used after its browser was closed
    | TableNotRendered  // the "Top Stock" table never appeared

  /** The download directory: `state.json` and `top_stocks.csv`. */
  class DownloadDir {
    var stateFile: Option<AuthState>
    var topStocksCsv: Option<Frame>

    constructor (stateFile: Option<AuthState>)
      ensures this.stateFile == stateFile && topStocksCsv == None
    {
      this.stateFile := stateFile;
      topStocksCsv := None;
    }
  }

  /** The running automation engine. */
  class Engine {
    var running: bool

    constructor ()
      ensures running
    {
      running := true;
    }

    method Stop()
      modifies this
      ensures !running
    {
      running := false;
    }
  }

  /** A launched browser. */
  class Browser {
    const engine: Engine
    var open: bool

    constructor (engine: Engine)
      ensures this.engine == engine && open
    {
      this.engine := engine;
      open := true;
    }

    method Close()
      modifies this
      ensures !open
    {
      open := false;
    }
  }

  /** A browser context, built from a saved storage state or from none. */
  class Context {
    const browser: Browser
    const restoredFrom: Option<AuthState>
    var state: AuthState

    constructor (browser: Browser, restoredFrom: Option<AuthState>)
      ensures this.browser == browser && this.restoredFrom == restoredFrom
      ensures state == restoredFrom.GetOr(NoAuth)
    {
      this.browser := browser;
      this.restoredFrom := restoredFrom;
      state := restoredFrom.GetOr(NoAuth);
    }
  }

  /** A page of a context. */
  class Page {
    const context: Context
    var url: string

    constructor (context: Context)
      ensures this.context == context && url == "about:blank"
    {
      this.context := context;
      url := "about:blank";
    }

    method Goto(url: string)
      modifies this
      ensures this.url == url
    {
      this.url := url;
    }
  }

  class StockbitDownloader {
    var p: Engine?
    var browser: Browser?
    var context: Context?
    var page: Page?

    /** Resources are acquired in order engine, browser, context, page, and
        the page belongs to the current context of the current browser. */
    ghost predicate Valid()
      reads this
    {
      (page != null ==> context != null && page.context == context &&
                        context.browser == browser) &&
      (context != null ==> browser != null) &&
      (browser != null ==> p != null)
    }

    /** A new downloader holds no browser resources. */
    constructor ()
      ensures Valid()
      ensures p == null && browser == null && context == null && page == null
    {
      p, browser, context, page := null, null, null, null;
    }

    /** Starts the engine and launches the browser (`launches` says whether the
        launch succeeds). The context restores the saved state exactly when
        the state file exists, and a fresh page is opened in it. A failed
        launch leaves a started engine and the earlier browser, context and
        page. */
    method StartBrowser(dir: DownloadDir, launches: bool) returns (o: Outcome<Error>)
      requires Valid()
      modifies this
      ensures Valid()
      ensures p != null && fresh(p) && p.running
      ensures o == if launches then Pass else Fail(LaunchFailed)
      ensures !launches ==>
                browser == old(browser) && context == old(context) && page == old(page)
      ensures launches ==>
                browser != null && fresh(browser) && browser.open && browser.engine == p &&
                context != null && fresh(context) && context.browser == browser &&
                page != null && fresh(page) && page.context == context
      ensures launches ==>
                context.restoredFrom == dir.stateFile &&
                context.state == dir.stateFile.GetOr(NoAuth)
    {
      p := new Engine();
      if !launches {
        return Fail(LaunchFailed);
      }
      browser := new Browser(p);
      if dir.stateFile.Some? {
        context := new Context(browser, dir.stateFile);
      } else {
        context := new Context(browser, None);
      }
      page := new Page(context);
      o := Pass;
    }

    /** When the state file is missing, sends the page to the login URL, waits
        for the operator to log in (`loggedIn` is the storage state the login
        leaves in the context) and writes that state to the file. When the file
        exists, nothing changes. Using the page before it exists, or after its
        browser was closed, fails with nothing written. */
    method LoginManualIfNeeded(dir: DownloadDir, loggedIn: AuthState) returns (o: Outcome<Error>)
      requires Valid()
      modifies dir, page, context
      ensures dir.topStocksCsv == old(dir.topStocksCsv)
      ensures dir.stateFile.Some? <==>
                (old(dir.stateFile).Some? || (page != null && page.context.browser.open))
      ensures old(dir.stateFile).Some? ==>
                o == Pass && dir.stateFile == old(dir.stateFile) &&
                (page != null ==> unchanged(page)) && (context != null ==> unchanged(context))
      ensures old(dir.stateFile).None? && page == null ==>
                o == Fail(NotStarted) && dir.stateFile == None
      ensures old(dir.stateFile).None? && page != null && !page.context.browser.open ==>
                o == Fail(Closed) && dir.stateFile == None && unchanged(page) && unchanged(context)
      ensures old(dir.stateFile).None? && page != null && page.context.browser.open ==>
                o == Pass && page.url == LoginUrl && page.context.state == loggedIn &&
                dir.stateFile == Some(loggedIn)
    {
      if dir.stateFile.None? {
        if page == null {
          return Fail(NotStarted);
        }
        if !browser.open {
          return Fail(Closed);
        }
        page.Goto(LoginUrl);
        context.state := loggedIn;
        dir.stateFile := Some(context.state);
      }
      o := Pass;
    }

    /** Scrapes the "Top Stock" table whose rows' cell texts are `table`
        (`rendered` says whether the table appears), keeps the six-cell rows in
        order under the fixed header and writes them to the CSV file. Scraping
        before the page exists or after its browser was closed fails, and so
        does a table that never renders; a failure writes no file. */
    method ScrapeTopStocks(dir: DownloadDir, trim: string -> string,
                           table: seq<seq<string>>, rendered: bool)
      returns (r: Result<Frame, Error>)
      requires Valid()
      modifies dir, page
      ensures dir.stateFile == old(dir.stateFile)
      ensures page == null ==> r == Failure(NotStarted) && unchanged(dir)
      ensures page != null && !page.context.browser.open ==>
                r == Failure(Closed) && unchanged(dir) && unchanged(page)
      ensures page != null && page.context.browser.open && !rendered ==>
                r == Failure(TableNotRendered) && unchanged(dir)
      ensures page != null && page.context.browser.open && rendered ==>
                r.Success? &&
                r.value.columns == ["Buy", "N.Val", "N.Lot", "N.Freq", "Avg", "N.Foreign"] &&
                r.value.rows == Accepted(Rows(trim, table)) &&
                dir.topStocksCsv == Some(r.value)
    {
      if page == null {
        return Failure(NotStarted);
      }
      if !browser.open {
        return Failure(Closed);
      }
      page.Goto(HomeUrl);
      if !rendered {
        return Failure(TableNotRendered);
      }
      var data, skipped := CollectRows(trim, table);
      var df := ToFrame(data);
      dir.topStocksCsv := Some(df);
      r := Success(df);
    }

    /** Closes the browser if one was launched and stops the engine if one was
        started; safe on a downloader that was never started. */
    method CloseBrowser()
      modifies browser, p
      ensures browser != null ==> !browser.open
      ensures p != null ==> !p.running
    {
      if browser != null {
        browser.Close();
      }
      if p != null {
        p.Stop();
      }
    }
  }
}
