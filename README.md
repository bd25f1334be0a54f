# Stockbit "Top Stock" downloader: a Dafny model

The downloader opens a browser session on Stockbit and scrapes the
"Top Stock" table of the Bandar Detector menu into a CSV file. It reuses a
saved login (`state.json` in the download directory) when one exists, and
otherwise waits for the operator to log in by hand, then saves that login.

The model has two parts:

- `TopStock` (`top_stock.dfy`) is the row-validation step of
  `scrape_top_stocks`. Each body row becomes the list of its trimmed cell
  texts. A row is kept only when it has exactly six cells. Kept rows stay in
  table order under the fixed header `Buy, N.Val, N.Lot, N.Freq, Avg,
  N.Foreign`. Every other row is skipped and reported, and skipping is never
  an error. `Accepted` and `Rejected` are the specification functions.
  `CollectRows` is the source's loop, proved against them. The lemmas show
  that `Accepted` is exactly the order-preserving subsequence of six-cell
  rows, and the facts that follow from that.
- `Session` (`session.dfy`) is the class `StockbitDownloader` with its fields
  `p`, `browser`, `context` and `page`. Each field is a nullable reference to
  a small object standing for the browser engine's handle. The download
  directory is an object holding `state.json` and `top_stocks.csv`. Python
  exceptions on the modelled paths become `Outcome`/`Result` error values:
  a failed launch, use of a page that was never opened, use of a page whose
  browser was closed, and a table that never renders.

Inputs the program gets from outside are parameters of the methods:

- whether the browser launches;
- the storage state the operator's login produces;
- whether the table renders;
- the cell texts of the table's rows;
- the trimming function.

## Model

| member | source | states |
|---|---|---|
| `TopStock.IsStockRow` | login.py:69 | a row is kept when it has exactly six cells, one per column of the header |
| `TopStock.Rows` | login.py:67-68 | every table row becomes its trimmed cell texts, in table order, and counts as a stock row exactly when the table row had six cells |
| `TopStock.CellTexts` | login.py:68 | a row's cells are its cells' trimmed texts, one per cell, in cell order |
| `TopStock.Accepted` | login.py:66-70 | every kept row has exactly six cells, and no more rows are kept than were scraped |
| `TopStock.Rejected` | login.py:69-72 | every skipped row has a width other than six |
| `TopStock.AcceptedPositions` | login.py:67-70 | the positions of the six-cell rows, strictly increasing, each the position of a six-cell row |
| `TopStock.AcceptedIsSubsequence` | login.py:66-70 | the kept rows are exactly the rows at the six-cell positions, copied verbatim and in table order, and no six-cell row is missed |
| `TopStock.AcceptedMembership` | login.py:69-70 | a row is in the result if and only if it is a scraped row with six cells |
| `TopStock.RejectedMembership` | login.py:71-72 | a row is skipped if and only if it is a scraped row whose width is not six |
| `TopStock.AcceptedRejectedPartition` | login.py:67-72 | every scraped row is either kept or skipped: the two multisets add up to the table's rows |
| `TopStock.AcceptedEmpty` | login.py:64-75 | the result is empty if and only if no row has six cells, so an empty table gives an empty result |
| `TopStock.AcceptedAppend` | login.py:67-72 | rows are judged one at a time: the result for two tables in sequence is the two results in sequence |
| `TopStock.AcceptedIdempotent` | login.py:66-72 | filtering an already filtered table changes nothing |
| `TopStock.CollectRows` | login.py:66-72 | the loop's `data` is `Accepted` and its reported rows are `Rejected`, both as functions of the table alone |
| `TopStock.ToFrame` | login.py:75 | the table's header is exactly `Buy, N.Val, N.Lot, N.Freq, Avg, N.Foreign`, it holds the given rows, and every row has one cell per column |
| `Session.StockbitDownloader.constructor` | login.py:12-16 | a new downloader holds no engine, browser, context or page |
| `Session.StockbitDownloader.StartBrowser` | login.py:19-31 | starts a fresh engine; on a successful launch, a fresh browser, context and page, the context restoring the saved state if and only if the state file exists; a failed launch leaves the other fields as they were |
| `Session.StockbitDownloader.LoginManualIfNeeded` | login.py:33-40 | writes the state file, with the operator's login, if and only if it was absent and the page is open (after sending the page to the login URL); when the file exists nothing changes; a missing page or a closed browser fails with nothing written |
| `Session.StockbitDownloader.ScrapeTopStocks` | login.py:42-82 | with an open page and a rendered table, navigates to the home page, then returns and writes the fixed-header table of the accepted rows; a missing page, a closed browser or an unrendered table fails and writes no file; the state file is never touched |
| `Session.StockbitDownloader.CloseBrowser` | login.py:84-88 | closes the browser only if one was launched and stops the engine only if one was started, so it is safe on a downloader that was never started |

## Left out

- Playwright interaction in `scrape_top_stocks` beyond the first navigation (the two `click`s, `wait_for_selector`, `query_selector_all`, `inner_text`): foreign browser I/O. The page's address after the clicks is not modelled. The scraped cell texts and whether the table renders are inputs. Click failures on the menu or tab are not modelled.
- The optional "skip" dialog (login.py:47-52): a 3000 ms timed probe whose exception is swallowed. It does not affect the result.
- `input()` in the manual login: console I/O. The storage state the operator's login leaves in the context is an input instead.
- All `print` diagnostics. The skipped rows that line 72 reports are returned by `CollectRows` as `skipped`.
- pandas `DataFrame` internals and the CSV encoding of `to_csv`. The CSV file is modelled as holding the frame.
- `load_dotenv`, `os.getenv`, the `state.json` / `top_stocks.csv` path joins and `os.makedirs` (login.py:6-9, 17): configuration plumbing. The download directory is an existing `DownloadDir` object.
- The `__main__` driver (login.py:90-101).
- `str.strip`: its Unicode whitespace rules are not modelled. Trimming is the parameter `trim`.
- Exceptions raised by `new_context`, `new_page`, `storage_state`, `close` or `stop`: not modelled. The only start failure modelled is a failed launch.
- Session.StockbitDownloader.CloseBrowser: the context is not closed separately, the fields are not cleared, and a failure while closing the browser is not modelled, so the engine is stopped after it without isolation.
