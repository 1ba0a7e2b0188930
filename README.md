# daily-summary: a Dafny model of the digest's deterministic core

The daily-summary program builds a morning digest mail. It collects the subjects and
snippets of unread mail over IMAP and the top news headlines from NewsAPI. It adds a
weather summary from OpenWeather and sends the result as a plain-text and HTML
mail over SMTP. Each of its four modules wraps a small piece of deterministic logic
in network I/O. This project models that logic in Dafny and proves what the code
promises about it. Every network service is replaced by a value passed in:

- a scripted IMAP server (`EmailFetcher.Server`);
- a reply function for the HTTP services (`NewsClient.FetchTopHeadlines`, `WeatherClient.GetDailyWeather`);
- a ghost trace of SMTP events (`SummaryMailer.SmtpChannel`).

Layout, one module per file:

- `Wrappers.dfy`: `Option`, `Result`, `IsSubsequence` (order-preserving deletion) and two facts about appending to sequences.
- `Environment.dfy`: the process environment as a map, `os.getenv`, and the truthiness of an optional string.
- `Text.dfy`: Python's `str.isspace`, `strip`, `split()` and `join`, and the collapse `" ".join(s.strip().split())`.
- `EmailFetcher.dfy` (`src/email_fetcher.py`):
  - `_extract_snippet` as functions over an already decoded message;
  - `fetch_unread` as methods over a connection object `ImapConnection`, which keeps a trace of the session's events. The methods are proved against the pure specification `Session`/`Attempt`/`Scan`.
- `SummaryMailer.dfy` (`src/summary_mailer.py`):
  - `build_body`, with parsers that read both bodies back;
  - the settings check of `send_summary_email`, including the port conversion;
  - the order of the SMTP session, as a method over a traced channel.
- `NewsClient.dfy` (`src/news_client.py`): `fetch_top_headlines` as a method. It builds the query map by insertion and selects headlines in a loop over `articles[:limit]`.
- `WeatherClient.dfy` (`src/weather_client.py`): `get_daily_weather` as functions: working-set choice, mean, most common description with first-seen tie-break, and maximum `pop` with default 0.0.

Notes on behaviour modelled as written:

- The SMTP port is converted with `int()` before the missing-settings check. A bad `SMTP_PORT` is therefore reported even when other settings are missing. An empty `SMTP_PORT` is rejected, while an unset one defaults to 587.
- A bare empty string as `keywords` is falsy for the selector check. It is then wrapped as `[""]`, which is truthy. With a category it therefore sends `q=""` and no category (`NewsClient.EmptyPhraseSendsEmptyQuery`).
- News results are cut to the limit before they are filtered (`NewsClient.TruncateBeforeFilter`). Fewer than `limit` headlines can therefore come back even though later articles are valid.
- A snippet can end in a space, because the 100-character cut may fall right after one (`EmailFetcher.SnippetMayEndInSpace`).
- An exception from `logout`, or else from `close`, replaces whatever the `try` block of `fetch_unread` returned or raised.
- `Store` events are only the explicit `store(id, "+FLAGS", "\\Seen")` calls made with mark_as_read. `select(mailbox)` opens the mailbox read-write. A FETCH of `(RFC822)` therefore sets `\Seen` on the server by itself (section 6.4.5 of RFC 3501), so `mark_as_read=False` does not keep mail unread on a conforming server. That server-side effect is not modelled.
- `int()` skips only the ASCII space, `'\t'` through `'\r'` and non-ASCII whitespace around the port. The separators `'\x1c'` through `'\x1f'`, which `str.strip()` drops, make it raise (`SummaryMailer.SeparatorPortRejected`).
- Keyword and default arguments keep the source's defaults: `mailbox="INBOX"`, `mark_as_read=False` and `exclude_promotions=False` for `EmailFetcher.FetchUnread`, and no keywords, no category and `limit=5` for `NewsClient.FetchTopHeadlines`.

## Model

| member | source | states |
|---|---|---|
| Environment.Getenv | src/summary_mailer.py:69-74 | `os.getenv(name)`: the value when the variable is set, None otherwise |
| Environment.Truthy | src/summary_mailer.py:76 | an optional string is truthy when it is set and non-empty |
| Text.IsSpace | src/email_fetcher.py:99 | the characters for which `str.isspace()` holds, on which `strip()` and `split()` work; the whitespace lemmas below are stated with it |
| Text.TrimStart | src/email_fetcher.py:99 | `lstrip`: the result is a suffix of the input, everything dropped is whitespace, and it does not start with whitespace |
| Text.TrimEnd | src/email_fetcher.py:99 | `rstrip`: the result is a prefix of the input, everything dropped is whitespace, and it does not end with whitespace |
| Text.Strip | src/email_fetcher.py:99 | the stripped text neither starts nor ends with whitespace |
| Text.WordLen | src/email_fetcher.py:99 | the leading run of non-whitespace ends at whitespace or at the end of the text |
| Text.Words | src/email_fetcher.py:99 | every element of `split()` is non-empty and holds no whitespace; `Text.WordsConcat` shows the words together are the input without its whitespace |
| Text.Collapse | src/email_fetcher.py:99 | the collapsed text has no leading or trailing whitespace, only plain spaces, and no two adjacent |
| Text.Join | src/email_fetcher.py:99 | `sep.join(ws)`, the join used by the collapse; `Text.WordsOfJoin` and `Text.JoinWordsCollapsed` state what joining words with single spaces gives |
| Text.JoinWordsCollapsed | src/email_fetcher.py:99 | words joined by single spaces are collapsed, and non-empty when there is a word |
| Text.WordsOfJoin | src/email_fetcher.py:99 | splitting words joined by single spaces gives the same words back |
| Text.WordLenOfWord | src/email_fetcher.py:99 | a word followed by whitespace or by nothing ends where the word ends |
| Text.StripCollapsed | src/email_fetcher.py:99 | stripping a collapsed text leaves it unchanged |
| Text.CollapseIdempotent | src/email_fetcher.py:99 | collapsing twice gives the same text as collapsing once |
| Text.CollapseOfJoin | src/email_fetcher.py:99 | words already joined by single spaces are a fixed point of the collapse |
| Text.CollapseOfCollapsed | src/email_fetcher.py:99 | every collapsed text is a fixed point of the collapse |
| Text.JoinWordsOfCollapsed | src/email_fetcher.py:99 | a collapsed text is its own words joined by single spaces |
| Text.CollapsedSuffix | src/email_fetcher.py:99 | a collapsed text cut right before a non-space stays collapsed |
| Text.CollapseKeepsWords | src/email_fetcher.py:99 | collapsing keeps exactly the words of the input, in order |
| Text.CollapseKeepsCharacters | src/email_fetcher.py:99 | collapsing keeps every non-whitespace character of the input, in order, and adds none |
| Text.WordsConcat | src/email_fetcher.py:99 | the words of `split()`, concatenated, are exactly the input's non-whitespace characters in order |
| Text.NonSpaceOfRun | src/email_fetcher.py:99 | a leading run without whitespace survives whole when the whitespace is removed |
| Text.WordsOfStrip | src/email_fetcher.py:99 | stripping does not change the words |
| Text.WordsOfTrimStart | src/email_fetcher.py:99 | leading whitespace does not change the words |
| Text.WordsOfTrimEnd | src/email_fetcher.py:99 | trailing whitespace does not change the words |
| Text.WordsAppendSpace | src/email_fetcher.py:99 | appending whitespace does not change the words |
| Text.WordLenAppendSpace | src/email_fetcher.py:99 | appending whitespace does not change the length of the first word |
| EmailFetcher.IsBodyPart | src/email_fetcher.py:86 | the test of the walk loop: content type text/plain and an absent or empty Content-Disposition; `EmailFetcher.FindBodyPart` is specified with it |
| EmailFetcher.FindBodyPart | src/email_fetcher.py:84-90 | the part chosen is a text/plain part without Content-Disposition, and no earlier part is one; None exactly when no part is one |
| EmailFetcher.BodyText | src/email_fetcher.py:83-97 | a multipart message gives the text of the first body part, or "" when there is none; a single-part message gives its decoded payload or "" |
| EmailFetcher.Snippet | src/email_fetcher.py:99-100 | the snippet has at most 100 characters and is a prefix of the collapsed text: all of it when that has at most 100 characters, its first 100 otherwise |
| EmailFetcher.ExtractSnippet | src/email_fetcher.py:81-100 | `_extract_snippet`: the snippet of the message's body text; what it is follows from `EmailFetcher.BodyText`, `EmailFetcher.Snippet` and the snippet lemmas |
| EmailFetcher.SnippetShape | src/email_fetcher.py:99-100 | the snippet has no leading whitespace, its only whitespace is plain spaces, and no two are adjacent |
| EmailFetcher.SnippetMayEndInSpace | src/email_fetcher.py:99-100 | the cut can leave a trailing space: 99 letters, a space and one more word give a snippet ending in a space |
| EmailFetcher.SnippetOfLongWord | src/email_fetcher.py:99-100 | a body of 120 equal letters gives exactly the first 100 of them |
| EmailFetcher.SnippetOfCollapsed | src/email_fetcher.py:99-100 | a single-spaced body of at most 100 characters is its own snippet |
| EmailFetcher.NoBodyPartNoSnippet | src/email_fetcher.py:84-90 | a multipart message without a usable text part has the empty snippet |
| EmailFetcher.EntryOf | src/email_fetcher.py:56-71 | what one fetch reply adds to the result list: the `(subject, snippet)` entry for status "OK", nothing for any other status (the `continue`) or for a fetch that raises |
| EmailFetcher.StepEvents | src/email_fetcher.py:56-71 | the events of one turn: the fetch, then for status "OK" the append and, with mark_as_read, the store |
| EmailFetcher.Scan | src/email_fetcher.py:55-71 | the loop fetches no more ids than were searched |
| EmailFetcher.ScanEventsInLoop | src/email_fetcher.py:55-71 | the loop itself only fetches, appends and stores |
| EmailFetcher.Attempt | src/email_fetcher.py:41-73 | the `try` block as a value: a login that raises ends it after the login, a search that raises ends it after the search, a failed search returns [], and otherwise the loop runs; `EmailFetcher.TryBlock` is proved equal to it and `EmailFetcher.SessionResult` states its result |
| EmailFetcher.Session | src/email_fetcher.py:40-78 | the whole call as a value: the `try` block followed by close and logout, an exception from logout, or else close, replacing the outcome; `EmailFetcher.FetchUnread` is proved equal to it and `EmailFetcher.SessionShape` states its shape |
| EmailFetcher.SessionShape | src/email_fetcher.py:40-78 | every session logs in first and ends with close then logout, once each; a logout exception, or else a close exception, is what the caller sees; a failed login or search, or a search that raises, fetches nothing; otherwise a search that raises is what the caller sees and a failed search returns [] |
| EmailFetcher.ImapConnection.constructor | src/email_fetcher.py:40 | a new connection talks to the given server and has an empty trace |
| EmailFetcher.ImapConnection.Login | src/email_fetcher.py:42 | login succeeds unless the server's login raises, and is recorded |
| EmailFetcher.ImapConnection.Select | src/email_fetcher.py:43 | the mailbox selection is recorded |
| EmailFetcher.ImapConnection.Search | src/email_fetcher.py:45-50 | the search raises when the server's search does, and otherwise returns the server's status and ids; it records whether the primary-category modifier was used |
| EmailFetcher.ImapConnection.Fetch | src/email_fetcher.py:56 | a fetch returns the server's reply for that id and is recorded |
| EmailFetcher.ImapConnection.Store | src/email_fetcher.py:70-71 | the `\Seen` store for an id is recorded |
| EmailFetcher.ImapConnection.Close | src/email_fetcher.py:76 | close succeeds unless the server's close raises, and is recorded |
| EmailFetcher.ImapConnection.Logout | src/email_fetcher.py:78 | logout succeeds unless the server's logout raises, and is recorded |
| EmailFetcher.FetchUnread | src/email_fetcher.py:7-78 | with the source's defaults for mailbox, mark_as_read and exclude_promotions, the result and the whole trace of a call are those of the specification `Session` |
| EmailFetcher.TryBlock | src/email_fetcher.py:41-73 | the `try` block's result and trace are those of `Attempt`: login, select, search, then the loop unless the search raised or failed |
| EmailFetcher.FetchAll | src/email_fetcher.py:54-71 | the loop's list, the id whose fetch raised, and its trace are those of `Scan` |
| EmailFetcher.LoopStep | src/email_fetcher.py:55-71 | one turn of the loop keeps its invariant: one more id fetched, its events appended, its entry added to the list |
| EmailFetcher.FetchOne | src/email_fetcher.py:56-71 | one id is fetched; on "OK" its entry is appended and then, with mark_as_read, `\Seen` is stored; on any other status nothing else happens |
| EmailFetcher.ScanExtends | src/email_fetcher.py:55-71 | running the loop over one more id adds exactly that id's turn |
| EmailFetcher.ScanStopsAtRaise | src/email_fetcher.py:55-71 | once a fetch has raised, the remaining ids are never touched |
| EmailFetcher.OkEntriesAppend | src/email_fetcher.py:57-68 | the result list over more ids is the list over fewer ids followed by the new id's entry |
| EmailFetcher.OkEntriesExtends | src/email_fetcher.py:57-68 | the same, for a prefix of the searched ids |
| EmailFetcher.OkEntries | src/email_fetcher.py:57-68 | the reference list: one entry per id whose fetch status is "OK", in id order; `EmailFetcher.FetchAll` is proved to build it |
| EmailFetcher.FetchedStep | src/email_fetcher.py:56 | each turn of the loop fetches exactly its own id |
| EmailFetcher.ScanWithoutRaise | src/email_fetcher.py:55-58 | when no fetch raises, every searched id is fetched once, in search order, including those with a non-"OK" status |
| EmailFetcher.ScanRaised | src/email_fetcher.py:55-58 | when a fetch raises, the ids up to it are fetched in order, that one's fetch raised, and no later id is fetched |
| EmailFetcher.ScanRaisedLast | src/email_fetcher.py:55-58 | the same, when the last id is the one whose fetch raised |
| EmailFetcher.WellOrdered | src/email_fetcher.py:56-71 | the ordering the loop keeps: a store only with mark_as_read and right after the append of its id; an append right after the fetch of its id, whose status was "OK"; with mark_as_read, each append followed at once by its store |
| EmailFetcher.ScanWellOrdered | src/email_fetcher.py:68-71 | `\Seen` is stored only with mark_as_read, only for an id fetched with "OK", and right after its entry was appended; with mark_as_read every appended entry is stored |
| EmailFetcher.SessionResult | src/email_fetcher.py:51-73 | a returned list means neither login nor search raised; it is [] after a failed search; otherwise it has one entry per "OK" id in search order, and every searched id was fetched once |
| EmailFetcher.SessionResultSearched | src/email_fetcher.py:54-73 | the same, for a successful search |
| EmailFetcher.SessionOrdered | src/email_fetcher.py:40-78 | the store-after-append order holds for a whole session's trace |
| SummaryMailer.Enclose | src/summary_mailer.py:31-32 | the join of one formatted string per element; `SummaryMailer.EncloseAppend` and `SummaryMailer.ParseEnclose` state what it holds |
| SummaryMailer.Bullets | src/summary_mailer.py:31-32 | the `- x\n` lines of the text body |
| SummaryMailer.ListItems | src/summary_mailer.py:46-49 | the `<li>x</li>` items of the HTML body |
| SummaryMailer.BuildBody | src/summary_mailer.py:12-54 | `build_body`: the text and HTML bodies; `SummaryMailer.TextRoundTrip` and `SummaryMailer.HtmlRoundTrip` show each holds exactly its inputs, in the source's section order |
| SummaryMailer.EncloseAppend | src/summary_mailer.py:31-32 | each element contributes its own bullet or list item, in input order: the block of a concatenation is the concatenation of the blocks |
| SummaryMailer.EncloseOne | src/summary_mailer.py:31-32 | one element gives exactly `open + x + close` |
| SummaryMailer.FindChar | src/summary_mailer.py:34-52 | the position returned is the first occurrence of the character, or the end |
| SummaryMailer.After | src/summary_mailer.py:34-52 | what follows a prefix really follows it |
| SummaryMailer.FindCharAfter | src/summary_mailer.py:34-52 | a field without the character ends where the separator starts |
| SummaryMailer.ParseEnclose | src/summary_mailer.py:31-32 | reading back a bullet or list-item block gives the same elements and the text after them, when no element holds the closing character |
| SummaryMailer.ParseOne | src/summary_mailer.py:31-32 | reading one element off the front of a block |
| SummaryMailer.ReadField | src/summary_mailer.py:34-52 | the weather field, up to the section that follows it, is read back whole |
| SummaryMailer.TextRoundTrip | src/summary_mailer.py:31-39 | the text body reads back as exactly its items, weather and headlines, in order, when none holds a line break |
| SummaryMailer.HtmlRoundTrip | src/summary_mailer.py:31-52 | the HTML body reads back as exactly its items, weather and headlines, when none holds a `<` |
| SummaryMailer.TextNotEscaped | src/summary_mailer.py:31-39 | nothing is escaped: an item holding a line break and a bullet gives the same text body as two items |
| SummaryMailer.HtmlNotEscaped | src/summary_mailer.py:31-52 | nothing is escaped: an item holding `</li><li>` gives the same HTML body as two items |
| SummaryMailer.ParseDigits | src/summary_mailer.py:70 | the value of a non-empty run of ASCII digits, None for anything else; `SummaryMailer.DigitsOfNat` is its round trip with `str` |
| SummaryMailer.IntSpace | src/summary_mailer.py:70 | the whitespace `int()` skips around a number: the ASCII space, `'\t'` through `'\r'`, and non-ASCII whitespace |
| SummaryMailer.IntTrimStart | src/summary_mailer.py:70 | the result is a suffix of the input and does not start with whitespace `int()` skips |
| SummaryMailer.IntTrimEnd | src/summary_mailer.py:70 | the result is a prefix of the input and does not end with whitespace `int()` skips |
| SummaryMailer.ParseInt | src/summary_mailer.py:70 | `int(s)`: skipped whitespace, an optional sign and between 1 and 4300 digits; None where `int()` raises; `SummaryMailer.ParseIntToString`, `SummaryMailer.IntPadding`, `SummaryMailer.ParseIntOfBlank` and `SummaryMailer.TooManyDigits` state what it accepts |
| SummaryMailer.ParseSigned | src/summary_mailer.py:70 | an optional '-' or '+' and then at most 4300 digits |
| SummaryMailer.LimitedDigits | src/summary_mailer.py:70 | the digit run's value, refused beyond `int()`'s default limit of 4300 digits |
| SummaryMailer.NatToString | src/summary_mailer.py:70 | the decimal text of a number is a non-empty digit string |
| SummaryMailer.DigitsOfNat | src/summary_mailer.py:70 | the digits of a number read back as that number |
| SummaryMailer.ParseIntToString | src/summary_mailer.py:70 | `int(str(n)) == n` for every integer whose decimal form has at most 4300 digits, the default limit beyond which both `str` and `int` raise |
| SummaryMailer.ParseIntOfDigits | src/summary_mailer.py:70 | a digit string of at most 4300 digits reads as its value, and with a leading '-' as its negation |
| SummaryMailer.Unsigned | src/summary_mailer.py:70 | a digit string of at most 4300 digits that neither starts nor ends with skipped whitespace reads as its value |
| SummaryMailer.Negated | src/summary_mailer.py:70 | a '-' followed by at most 4300 digits reads as the negated value |
| SummaryMailer.TooManyDigits | src/summary_mailer.py:70 | more than 4300 digits, with or without a '-', make `int()` raise |
| SummaryMailer.DigitNotSpace | src/summary_mailer.py:70 | a digit is not whitespace that `int()` skips |
| SummaryMailer.IntTrimUnchanged | src/summary_mailer.py:70 | text whose ends `int()` does not skip is kept whole |
| SummaryMailer.ParseIntOfBlank | src/summary_mailer.py:70 | `int()` of an empty or all-whitespace text raises, including text made of the separators `'\x1c'` to `'\x1f'` that it does not skip |
| SummaryMailer.IntPadding | src/summary_mailer.py:70 | whitespace `int()` skips, before or after the number, does not change what it reads |
| SummaryMailer.IntTrimStartPad | src/summary_mailer.py:70 | leading skipped whitespace is dropped exactly |
| SummaryMailer.IntTrimEndPad | src/summary_mailer.py:70 | trailing skipped whitespace is dropped exactly |
| SummaryMailer.SeparatorNotIgnored | src/summary_mailer.py:70 | `int("\x1c587")` raises: `'\x1c'` is not skipped although `str.isspace()` holds for it |
| SummaryMailer.PortText | src/summary_mailer.py:70 | `os.getenv("SMTP_PORT", "587")`: the variable's value when set, "587" otherwise |
| SummaryMailer.RequiredPresent | src/summary_mailer.py:76 | every required setting is set and non-empty; `SummaryMailer.RequiredSettings` lists them |
| SummaryMailer.LoadSmtpConfig | src/summary_mailer.py:69-77 | the reads and the check at the start of `send_summary_email`; `SummaryMailer.LoadSmtpConfigOutcome` and `SummaryMailer.LoadSmtpConfigValues` state its result |
| SummaryMailer.RequiredSettings | src/summary_mailer.py:76-77 | the five required settings are exactly host, user, password, sender and recipient |
| SummaryMailer.LoadSmtpConfigOutcome | src/summary_mailer.py:69-77 | the settings are accepted exactly when the port text (default "587") converts and all five required settings are non-empty; a bad port is the error whenever there is one, and otherwise the missing-setting error |
| SummaryMailer.LoadSmtpConfigValues | src/summary_mailer.py:69-74 | accepted settings are the values read, with the converted port |
| SummaryMailer.DefaultPort | src/summary_mailer.py:70-77 | with SMTP_PORT unset and the required settings present, the port is 587: the port is not a required setting |
| SummaryMailer.EmptyPortRejected | src/summary_mailer.py:70 | an SMTP_PORT set to "" is rejected as an invalid port |
| SummaryMailer.SeparatorPortRejected | src/summary_mailer.py:70 | an SMTP_PORT of `"\x1c587"` is rejected as an invalid port |
| SummaryMailer.LongPortRejected | src/summary_mailer.py:70 | an SMTP_PORT of 4301 digits is rejected as an invalid port |
| SummaryMailer.Delivery | src/summary_mailer.py:81-92 | the calls of one session: connect to host and port, starttls, login, sendmail of the "Daily Summary" mail with both bodies to `[to_addr]`, quit; `SummaryMailer.Deliver` is proved to make them |
| SummaryMailer.SmtpChannel.constructor | src/summary_mailer.py:89 | a new channel has an empty trace |
| SummaryMailer.SmtpChannel.Record | src/summary_mailer.py:89-92 | each SMTP call is appended to the trace |
| SummaryMailer.Deliver | src/summary_mailer.py:81-92 | when no SMTP call raises: one session connects to host and port, upgrades to TLS, logs in, sends the subject "Daily Summary" with both bodies to the single recipient, and quits |
| SummaryMailer.SendSummaryEmail | src/summary_mailer.py:69-92 | rejected settings give that error and open no session; accepted ones give exactly one delivery of the built bodies |
| NewsClient.KeywordsTruthy | src/news_client.py:36 | the truthiness of `keywords` before it is wrapped: None, the empty string and the empty list are falsy |
| NewsClient.AsTerms | src/news_client.py:39-40 | a bare string becomes a one-element list, None no terms, a list itself |
| NewsClient.QueryFor | src/news_client.py:45-49 | the query map: exactly the key, the page size, and `q` with the terms joined by spaces when there are terms, else `category` when it is truthy; `NewsClient.FetchTopHeadlines` sends a map that satisfies it |
| NewsClient.Clamp | src/news_client.py:43 | the limit is always in [3,5], kept when already there, 3 below and 5 above |
| NewsClient.Window | src/news_client.py:57 | `articles[:limit]` is a prefix of at most `limit` articles, of exactly `limit` when there are enough |
| NewsClient.IsListed | src/news_client.py:58-60 | an article is kept when its title and url are both present and non-empty |
| NewsClient.Listed | src/news_client.py:57-61 | the kept articles, in order; `NewsClient.ListedMembers` and `NewsClient.ListedSubsequence` state which |
| NewsClient.ToHeadline | src/news_client.py:61 | the `{title, url}` entry of a kept article |
| NewsClient.ToHeadlines | src/news_client.py:61 | the entries of a list of articles, one each, in order |
| NewsClient.Selected | src/news_client.py:56-61 | the entries of the kept articles among the first `limit`; `NewsClient.SelectedShape` states their shape |
| NewsClient.Outcome | src/news_client.py:51-63 | an HTTP failure gives its error; otherwise the entries chosen from the reply's articles, or from none when it lists no articles |
| NewsClient.FetchTopHeadlines | src/news_client.py:7-63 | with the source's defaults for keywords, category and limit: a missing API key wins over a missing selector and no request is sent for either; otherwise one request goes to the top-headlines URL with a 10-second timeout and the query of `QueryFor`: the key, the clamped page size, and `q` or else `category`; the result is the HTTP error or the headlines chosen from the reply, [] when it has no articles |
| NewsClient.CollectHeadlines | src/news_client.py:56-61 | the loop appends, in order, one entry for each article with a non-empty title and url |
| NewsClient.ListedSnoc | src/news_client.py:57-61 | one more article adds its entry exactly when it has a title and a url |
| NewsClient.ListedAppend | src/news_client.py:57-61 | the filter works article by article: filtering a concatenation concatenates the filtered parts |
| NewsClient.ToHeadlinesAppend | src/news_client.py:61 | entries are produced article by article |
| NewsClient.KeywordsTakePrecedence | src/news_client.py:39-49 | with truthy keywords the query has `q` and no `category`, and a bare string is sent unchanged |
| NewsClient.CategoryWithoutKeywords | src/news_client.py:39-49 | with falsy keywords and a category, the category is sent unless the keywords were a bare string |
| NewsClient.ListedAreListed | src/news_client.py:60 | every article kept has a non-empty title and url |
| NewsClient.ListedMembers | src/news_client.py:57-61 | an article is kept exactly when it is among the input and has a non-empty title and url |
| NewsClient.ListedSubsequence | src/news_client.py:57-61 | the kept articles are an order-preserving subsequence of the input |
| NewsClient.ListedShorter | src/news_client.py:57-61 | no more articles are kept than given |
| NewsClient.ToHeadlinesEach | src/news_client.py:61 | each entry holds the title and url of its article |
| NewsClient.SelectedShape | src/news_client.py:56-63 | the result has at most `limit` entries, each with a non-empty title and url, and is an order-preserving subsequence of the entries of the first `limit` articles |
| NewsClient.HeadlinesSubsequence | src/news_client.py:61 | entries made from an order-preserving subsequence of articles are an order-preserving subsequence of their entries |
| NewsClient.TruncateBeforeFilter | src/news_client.py:57-61 | three untitled articles use up a limit of 3, so a valid fourth is not returned although the filter alone would keep it |
| NewsClient.EmptyPhraseSendsEmptyQuery | src/news_client.py:36-49 | an empty bare string passes the selector check through the category, and then sends `q=""` and no category |
| WeatherClient.IsToday | src/weather_client.py:43 | a sample belongs to today when its `dt_txt`, or "" when it has none, starts with today's date |
| WeatherClient.TodaysSamples | src/weather_client.py:41-44 | the filtered list; `WeatherClient.TodaysMembers` and `WeatherClient.TodaysSubsequence` state what it keeps |
| WeatherClient.WorkingSet | src/weather_client.py:41-46 | today's samples, else the first sample; `WeatherClient.WorkingSetChoice` states the choice |
| WeatherClient.Sum | src/weather_client.py:49 | `sum(temperatures)`; `WeatherClient.SumBounds` bounds it |
| WeatherClient.Mean | src/weather_client.py:49 | `sum / len`; `WeatherClient.MeanWithin` and `WeatherClient.MeanOfEqual` state what it is |
| WeatherClient.Count | src/weather_client.py:52 | how often a description occurs, the count `Counter` keeps |
| WeatherClient.MostCommonOf | src/weather_client.py:52 | the first candidate with the highest count; `WeatherClient.MostCommonOfSpec` states it |
| WeatherClient.MostCommon | src/weather_client.py:52 | `Counter(conditions).most_common(1)[0][0]`; `WeatherClient.MostCommonSpec` states it |
| WeatherClient.MaxOr | src/weather_client.py:54 | `max(..., default=0.0)`; `WeatherClient.MaxOrSpec` states it |
| WeatherClient.ForecastRequest | src/weather_client.py:27-36 | the forecast URL, the query `q`, `appid` and `units=metric`, and a 10-second timeout |
| WeatherClient.Summarize | src/weather_client.py:48-60 | the summary of a working set, failing on an empty one; `WeatherClient.SummarizeSpec` states it |
| WeatherClient.GetDailyWeather | src/weather_client.py:8-60 | `get_daily_weather`: the key check, the request, and the summary of the reply's working set; `WeatherClient.KeyCheckedFirst` and `WeatherClient.WeatherOfReply` state its result |
| WeatherClient.Temperatures | src/weather_client.py:48 | one temperature per working-set sample, in order |
| WeatherClient.Descriptions | src/weather_client.py:51 | one description per working-set sample, in order |
| WeatherClient.Pops | src/weather_client.py:54 | one pop per working-set sample, 0.0 where it is missing |
| WeatherClient.KeyCheckedFirst | src/weather_client.py:23-25 | without a key the result is the key error, whatever the service would answer |
| WeatherClient.TodaysMembers | src/weather_client.py:41-44 | a sample is in today's set exactly when it is in the list and its `dt_txt` starts with today's date |
| WeatherClient.TodaysSubsequence | src/weather_client.py:41-44 | today's samples keep their list order |
| WeatherClient.WorkingSetChoice | src/weather_client.py:41-46 | the working set is today's samples when there are any, otherwise the first sample alone; it is empty only for an empty list |
| WeatherClient.NoneToday | src/weather_client.py:41-46 | with no sample of today, today's set is empty |
| WeatherClient.SumBounds | src/weather_client.py:49 | the sum lies between count times any lower bound and count times any upper bound |
| WeatherClient.MeanWithin | src/weather_client.py:48-49 | the mean temperature lies between any bounds of the temperatures |
| WeatherClient.MeanOfEqual | src/weather_client.py:48-49 | the mean of equal temperatures is that temperature |
| WeatherClient.IndexOf | src/weather_client.py:52 | the first position of a description |
| WeatherClient.MostCommonOfSpec | src/weather_client.py:52 | the pick is a candidate with the highest count, and every candidate before it counts strictly less |
| WeatherClient.MostCommonSpec | src/weather_client.py:52 | the condition is one of the descriptions, none occurs more often, and every description seen before its first occurrence occurs strictly less often |
| WeatherClient.MostCommonOfEqual | src/weather_client.py:52 | when all descriptions are equal, that description is the condition |
| WeatherClient.MaxOrSpec | src/weather_client.py:54 | the chance of rain is at least every pop and is one of them, or 0.0 when there are none |
| WeatherClient.SummarizeSpec | src/weather_client.py:48-60 | a summary fails only for an empty working set; otherwise its temperature is the mean of the temperatures and lies within their bounds, its condition is a first-seen most common description, and its chance of rain is the largest pop |
| WeatherClient.WeatherOfReply | src/weather_client.py:37-60 | with a key and a good reply, the result is the summary of the working set, and it fails exactly when the reply lists no samples |

## Left out

- Network I/O is not modelled. This covers `imaplib.IMAP4_SSL`, `requests.get` with `raise_for_status`, and the `smtplib` calls. Each service is a value passed in: a scripted server, a reply function, or a traced channel.
- The IMAP connection is assumed already open. A failure of `IMAP4_SSL(host)` itself, which happens before the `try`, is not modelled.
- Transport failures of `select` and `store` are not modelled, and the status `select` returns is not used, as in the source. Exceptions from `login`, `search`, `fetch`, `close` and `logout` are modelled.
- EmailFetcher.Session: whether `close` raises is scripted independently of the session's state. imaplib refuses CLOSE outside the SELECTED state, so after a login that raised, or a select that answered NO, the real `close` raises too and its error replaces the earlier one unless logout raises. The model lets the scripted server decide.
- The results of the library decoders are taken as given, already decoded to text. This covers `email.message_from_bytes`, `decode_header`, `get_payload(decode=True)`, charset decoding with `errors="replace"` and the order of `msg.walk()`.
- A decoder that raises is not modelled. `payload.decode(charset, ...)` and `subject.decode(encoding, ...)` raise `LookupError` for an unknown charset such as "unknown-8bit", which aborts the whole call instead of skipping the message.
- `data[0].split()` on bytes is not modelled: the searched ids arrive already split.
- When a fetch raises, the entries collected so far are lost with the exception. The model says so through `Raised`, and states no list for that case.
- MIME assembly (`MIMEMultipart`, `MIMEText`, `as_string`) is not modelled. It becomes one `SendMail` event that carries the subject, sender, recipient and both bodies.
- Python floats are modelled as `real`, so their rounding is not modelled. NaN values of `pop` are also left out.
- SummaryMailer.ParseInt: it models `int()` on ASCII digits with an optional sign, surrounded by the whitespace `int()` skips. Underscores between digits and non-ASCII decimal digits, which `int()` also accepts, are not modelled. The digit limit is the default of 4300. A limit changed with `sys.set_int_max_str_digits` or PYTHONINTMAXSTRDIGITS is not modelled, and neither are Python releases without a limit.
- SummaryMailer.Deliver: smtplib exceptions are not modelled. `smtplib.SMTP(host, port)` connects in its constructor, so a connect that raises escapes before the `with` block is entered and no QUIT is sent. A starttls, login or sendmail that raises leaves the block, which sends QUIT, and the error reaches the caller. The traced channel never fails.
- The `keywords` argument is modelled as None, a string, or a finite list. Generators and other one-shot iterables are not modelled: a generator is truthy even when empty.
- SummaryMailer.BuildBody: `email_items` and `headlines` are sequences. `build_body` iterates each of them twice, first for the text body and then for the HTML body, so a generator argument would give the full text lists and empty HTML lists. One-shot iterables are not modelled.
- Malformed JSON is not modelled: a non-string title or url, a null `articles` or `list`, or a sample without `main.temp` or `weather[0]`. The reply is taken as the typed value the code expects.
- Reading the clock (`datetime.utcnow`) is not modelled: today's ISO date is an input.
- The orchestration that calls the four components is not part of this model, and neither are the subject decoding branch (lines 63-65 of `src/email_fetcher.py`) or logging.
