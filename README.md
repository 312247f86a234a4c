# Walker Brain Portal — a Dafny model of its core logic

The Walker Brain Portal is a Streamlit dashboard over a Supabase (PostgREST)
database of analysed intake calls. This project models the parts of it that
compute something and can be stated precisely, one Dafny module per source
file, over a few shared helper modules:

- `Wrappers`, `PyValue`, `Strings`, `Seqs`, `Counter`: Python values and their
  truthiness, `dict.get`, string stripping and case, Python's text order,
  list helpers, and the insertion-ordered counting dictionary with its stable
  `sorted(..., key=lambda x: -x[1])`.
- `Postgrest`, `Database`, `Queries` (`utils/database.py`, `utils/queries.py`):
  every query builder produces a `Query` value (table, select list,
  predicates, ordering, row window), and `Postgrest.Matches` gives each
  predicate its meaning on a row. The search escaper, the count builders
  against their fetch builders, the median, `get_languages` and the
  testimonial status update are proved against those meanings.
- `Pagination`, `Filters`, `Constants`, `Export`, `Cards`
  (`components/*.py`, `utils/constants.py`, `utils/export.py`): page
  arithmetic and the Previous/Next writes, the filter wrappers and
  `clear_filters`, quality bands, sentinels, language cleaning, the clipboard
  text, truncation, list filtering and the transcript segmenter.
- `Ui`, `Auth` (`utils/auth.py`): `st.session_state` and `st.query_params`
  are the two maps of a `Ui.Session` object. The sign-in, registration,
  URL-token resume and logout flows are methods that change them, and the
  database procedures are function parameters.
- The pages: `QuoteBank`, `CallDataExplorer`, `LegacyCallDataExplorer`,
  `TestimonialPipeline`, `AngleBank`, and `TagPages` with `TagsPage4`,
  `TagsPage5` and `TagsPage8` for the three Tags pages. `TagPages` holds the
  tag counting, the taxonomy partition and the objection insights that the
  three Tags pages share.

Anything the code gets from a library or the network is a parameter:
- `json.loads`, `json.dumps` and `str()` are functions such as `parse` or
  `dumps`, and float parsing is `parseFloat`; `str.title` is modelled over
  ASCII as `Constants.Title`;
- the database procedures are oracles, and the clock is a `now` argument;
- a query that raised is `None` in an `Option` of rows.

Behaviour of the code worth knowing:
- `paginated_controls` does not clamp the page when the total is 0. A zero
  total gives no page count, so the stored page stays as it is.
- A whitespace-only e-mail passes the sign-in blank check, because that test
  is `if not email` on the unstripped text.
- `if user:` is false for an empty user record `{}` as well as for `None`, so
  an empty record from a procedure is treated as no user.
- In the testimonial board, an item whose status is NULL lands in no column.
  Only an item without a `status` key counts as flagged.
- The declined list always adds `...` to the quote, even a short one.
- Restore writes no `notes`, so the decline reason stays on the row.
- The objection fallback counts of `pages/4_Tags.py` and `pages/5_Tags.py`
  lower-case without stripping. A padded `" none "` is therefore counted,
  while the view filter drops it.
- `pages/8_Tags.py` draws its view chart outside any inner `try`, so a frame
  missing a chart column fails the whole section.

## Model

| member | source | states |
|---|---|---|
| Constants.FirstBand | utils/constants.py:231-234 | the band found holds the score and is one of the bands; there is none exactly when no band holds the score |
| Constants.QualityBand | utils/constants.py:223-234 | `None` and unconvertible scores give N/A; a real band name and colour exactly when the converted score lies in one of the five closed ranges |
| Constants.ToFloat | utils/constants.py:227-230 | `float(score)`: integers, floats and booleans convert, a text goes through the parser, `None`, lists and objects fail |
| Constants.BandsDisjoint | utils/constants.py:3-9 | no score lies in two of the five quality bands |
| Constants.IntegerScoresCovered | utils/constants.py:3-9 | every integer score from 0 to 100 gets the one band that holds it, never N/A |
| Constants.GapsAndOutOfRange | utils/constants.py:223-234 | a fractional score between two bands (such as 29.5) and a score outside 0..100 get N/A |
| Constants.Lookup | utils/constants.py:199 | `dict.get` with a default: the value of the key when present, the default when absent |
| Constants.GetBadgeClass | utils/constants.py:195-199 | always one of the four badge classes; a missing or empty tone is `wb-badge-info`; otherwise the tone map's entry for the lower-cased, stripped tone |
| Constants.IsFalsySentinel | utils/constants.py:202-213 | numbers and booleans are never sentinels, `None` is; text is one exactly when its stripped lower-case form is a sentinel word; a list or dict raises (unhashable) |
| Constants.RawSentinelsAreNormal | utils/constants.py:209-212 | every text in the sentinel set is also caught by the stripped lower-case test, so the two tests agree |
| Constants.SentinelExamples | utils/constants.py:202-213 | zero and `False` are values, `" NULL "` is a sentinel |
| Constants.SeparatorHidesSentinel | utils/constants.py:202-213 | a sentinel word behind the separator U+001C is still a sentinel, because `strip` removes the separator |
| Constants.CleanLanguage | utils/constants.py:216-220 | an empty or missing value gives `""`; the result never starts or ends with whitespace and is never longer than the value |
| Constants.CleanLanguageQuotesInsideSpaces | utils/constants.py:216-220 | quotes are stripped before whitespace: for any word `w` without blanks or quotes, `" 'w' "` keeps its quotes while `"'w'"` cleans to `w` |
| Constants.Title | utils/constants.py:166 | `str.title()`: same length; each letter is upper-cased after a non-letter and lower-cased after a letter |
| Constants.Humanize | utils/constants.py:164-166 | same length, no underscore left, every underscore becomes a space; each character is title-cased against the character before it, so a letter is upper case at the start or after a non-letter or underscore, and lower case after a letter |
| Constants.HumanizeTwoWords | utils/constants.py:164-166 | two lower-case words joined by `_` become the two words capitalised and joined by a space (`snake_case` gives `Snake Case`) |
| Constants.TitleCharCase | utils/constants.py:166 | title-casing one character changes only the case of a letter |
| Cards.RealValueAgainstSentinel | components/cards.py:234-242 | every scalar `_has_real_value` rejects is a falsy sentinel, but not conversely: `"false"` is a real value and a sentinel; `0`, `False` and `{}` are real, `[]` is not |
| Cards.HasRealValue | components/cards.py:234-242 | `None`, a blank or sentinel-looking text and an empty list have no real value; every number, boolean and object has one |
| Cards.QualityBadgeClass | components/cards.py:77-79 | always a badge class; red exactly for POOR and NEEDS IMPROVEMENT, amber exactly for ADEQUATE, green exactly for STRONG and EXCEPTIONAL |
| Cards.ScoreBadge | components/cards.py:75-80 | an integer score's pill is red from 0 to 59, amber from 60 to 74, green from 75 to 100 and info outside 0..100 |
| Cards.ItemTexts | components/cards.py:63 | the texts of a list exactly when every item is text, position by position |
| Cards.TagLine | components/cards.py:50-63 | a list of text tags shows its first five joined by `", "`; a text is JSON-parsed first, a parse failure giving `""` and a parsed list of texts its first five; a falsy value shows `""` |
| Cards.TagLineShowsFirstFive | components/cards.py:63 | of any list of text tags at most the first five are shown, in order |
| Cards.Truncate | components/cards.py:188 | a text within the limit is kept whole; a longer one keeps its first `n` characters followed by `...` |
| Cards.ShortId | components/cards.py:67 | the id label is the first twelve characters of the id, or all of a shorter id |
| Cards.KeepReal | components/cards.py:215-217 | the sentinel filter succeeds exactly when no item is a list or dict, and then keeps every item that is not a falsy sentinel, in order, and nothing else |
| Cards.KeepRealAllSentinels | components/cards.py:217-220 | a list of nothing but sentinels keeps nothing |
| Cards.KeepRealEntries | components/cards.py:223-227 | succeeds exactly when no value is a list or dict, and then gives every entry whose value is not a falsy sentinel, in key order, and nothing else |
| Cards.RenderField | components/cards.py:204-231 | `None` is a dash; a non-JSON field shows its value as is; a JSON list (given or parsed) is the bullet list of exactly its real items, a dash when none is left; an object is exactly its real entries; a list or dict inside raises; any other value, and text that does not parse, is shown as it is |
| Cards.AllSentinelsIsDash | components/cards.py:215-220 | a JSON list of nothing but `None` and `""` is drawn as a dash |
| Cards.LabelEnd | components/cards.py:249-256 | a label match ends on a colon within the line, after the label word, spaces, the digits (for `Speaker` only) and spaces |
| Cards.LabelEndIff | components/cards.py:249-256 | a label ends at `e` exactly when the line opens with the word ignoring case, then spaces, then digits (for `Speaker` only), then spaces, then a colon at `e - 1` |
| Cards.FirstLabel | components/cards.py:249-256 | the end of the first alternative, in pattern order, that matches; none exactly when no alternative matches |
| Cards.LineRole | components/cards.py:269-277 | when an agent alternative matches, the first such one gives the assistant role; otherwise the first matching caller alternative gives the user role; in both the text is what follows the label, stripped, and shorter than the line; a line matching neither gives no role |
| Cards.RenderChatTranscript | components/cards.py:245-285 | the loop over the transcript's lines draws exactly the events of the reference walk |
| Cards.FlushExpected | components/cards.py:262-285 | the final flush of the predicted state yields the captions and the messages of every segment |
| Cards.WalkIsSegments | components/cards.py:269-283 | the walk over the lines equals the reference reading: captions before the first label, every segment but the last closed, the last one open |
| Cards.SegmentsNonEmpty | components/cards.py:270-277 | every speaker segment holds at least the text on its label line |
| Cards.TranscriptIsSegments | components/cards.py:245-285 | the chat drawn for a transcript is its leading captions followed by one message per speaker segment with non-blank text |
| Cards.Step | components/cards.py:270-283 | one line never takes back what was drawn; a labelled line opens a message of its role holding its own text; an unlabelled line keeps the open role |
| Cards.Walk | components/cards.py:258-283 | after any prefix of the lines, no role is open with text, and an open role always holds at least one line, so the final flush draws every open message |
| Cards.VisitLine | components/cards.py:270-283 | the loop body moves the role, text and events exactly as one step of the walk |
| Cards.Segments | components/cards.py:270-283 | the reference reading has at most one speaker segment per line |
| Auth.Field | utils/auth.py:29 | `user[key]` gives the value exactly when the key is present and raises `KeyError` for that key otherwise |
| Auth.DisplayOf | utils/auth.py:73 | the display name when it is truthy, otherwise `user["user_email"]`, which may raise |
| Auth.Established | utils/auth.py:75-79 | a login adds the five auth keys with the flag `True`, the e-mail, display name, admin flag and token, and keeps every other key |
| Auth.WriteLogin | utils/auth.py:75-79 | the writes of a login; the URL is untouched; a record without an e-mail leaves only the flag set and raises `KeyError` |
| Auth.ResumeFromUrl | utils/auth.py:22-36 | no token (or an empty one) makes no call and changes nothing; otherwise the token is validated once; a token giving no user or an empty record is removed from the URL; a non-empty record logs in with that token, and one without an e-mail leaves only the flag set and raises `KeyError` |
| Auth.OpenSession | utils/auth.py:73-80 | the display name and `user_id` are read before `create_session`, a missing one raising with no call; then the login is written and the new token put into the URL |
| Auth.SignIn | utils/auth.py:67-83 | an empty field shows "Enter both email and password." with no call; the e-mail is stripped before the lookup; no user or an empty record shows "Invalid email or password." and changes nothing; a complete record reruns after `create_session`, with the login written and the same new token in state and URL; a missing `user_email` or `user_id` raises `KeyError` at the point the code reads it |
| Auth.RegistrationErrorText | utils/auth.py:131-138 | the existing-account message exactly when the lower-cased error holds one of the three clash words; the domain message exactly when it does not and the error names the domain |
| Auth.Register | utils/auth.py:106-138 | a missing field or unequal passwords stop with their messages and no call; otherwise `register_user` is called first with the e-mail and name stripped; a created account whose sign-in finds a complete record reruns logged in with the new token in state and URL; nothing escapes |
| Auth.Enrol | utils/auth.py:112-138 | a raised registration gives its mapped message, a falsy result "Registration failed. Please try again."; a truthy result is followed by the sign-in of `Auth.AutoLogin` on the same e-mail and password; no exception escapes |
| Auth.AutoLogin | utils/auth.py:114-137 | no user or an empty record gives "Account created! Please sign in." and changes nothing; a complete record reruns after `create_session` with the login written and the new token in state and URL; a missing field is shown as its registration message |
| Auth.CheckPassword | utils/auth.py:11-141 | the same-tab flag passes at once with no call; a URL token that validates to a non-empty record passes with that token stored and no more calls; otherwise the form is shown with an invalid token removed: an idle form stops quietly, a failed sign-in shows its error, and a completed sign-in or registration reruns with the new token in state and URL |
| Auth.CurrentUser | utils/auth.py:144-146 | a current user exactly when an e-mail is stored, and then it is the stored e-mail |
| Auth.CurrentDisplayName | utils/auth.py:149-151 | the stored display name when truthy, else the e-mail, else `""` |
| Auth.CheckAdmin | utils/auth.py:154-156 | the stored admin flag, `False` when none is stored |
| Auth.LoggedOut | utils/auth.py:168-169 | no auth key remains and every other key keeps its value |
| Auth.Logout | utils/auth.py:159-172 | the stored token's session is deleted when there is one; then the five keys and the URL token are removed |
| Auth.EstablishedReads | utils/auth.py:144-156 | after a login the helpers report the stored user, display name and admin flag, and the flag is set |
| Auth.LoggedOutReads | utils/auth.py:144-169 | after a logout no user is current, no one is admin, the display name is `""`, and a second logout changes nothing |
| Auth.LogoutUndoesLogin | utils/auth.py:75-79 | a logout after a login leaves exactly what a logout before it would |
| Auth.ClashWins | utils/auth.py:133-134 | an error holding any of the three clash words, in any case, always gives the existing-account message |
| Auth.MissingFieldIsGeneric | utils/auth.py:131-138 | a user record without an e-mail met after registration is reported with the generic failure message |
| Auth.Submit | utils/auth.py:112-138 | a form whose fields passed validation calls `register_user` first; a created account whose sign-in finds a complete record reruns logged in with the new token in state and URL; nothing escapes |
| Auth.AutoLoggedInShape | utils/auth.py:116-128 | the sign-in after registration (`Auth.AutoLoggedIn`) looks the user up first and makes at most one more call; no exception escapes; a rerun leaves the same token in state and URL |
| Auth.HasUrlToken | utils/auth.py:24-25 | the URL token is used exactly when `_session` is present and non-empty |
| Auth.AdminOf | utils/auth.py:31 | the record's admin flag, and `False` when it has none |
| Auth.KeyErrorText | utils/auth.py:132 | `str()` of a `KeyError` is its key between single quotes; any other exception gives its message |
| Ui.Session.constructor | utils/auth.py:20 | a new session holds the given state and URL parameters |
| Ui.ResetPageOnFilterChange | app_pages/3_Quote_Bank.py:41-45 | the state becomes what the reset idiom leaves and the URL is untouched |
| Ui.ResetSettles | app_pages/7_Call_Data_Explorer.py:61-64 | after the reset the stored key is current, so a second run with the same filters changes nothing; a change lands on page 0; other keys keep their values |
| QuoteBank.ResetQuotePage | app_pages/3_Quote_Bank.py:41-45 | the reset idiom on `qb_page` and `qb_page_filter_hash` |
| QuoteBank.DateArg | app_pages/3_Quote_Bank.py:51-52 | an empty date gives no bound, any other is passed as it is |
| QuoteBank.PageFilters | app_pages/3_Quote_Bank.py:48-53 | both quote queries get the slider's bounds and the date picker's start and end bounds |
| QuoteBank.EndDateAlwaysPassed | app_pages/3_Quote_Bank.py:48-53 | the end bound always reaches the query, ending at the last second of the day; the start bound is dropped only for an empty start |
| QuoteBank.SelKey | app_pages/3_Quote_Bank.py:77 | every check box key starts with `qb_sel_` |
| QuoteBank.SelectionFacts | app_pages/3_Quote_Bank.py:75-82 | the selection is the ticked rows in page order, `sel_count` is its size, and it is empty exactly when no box is ticked |
| QuoteBank.ExportRows | app_pages/3_Quote_Bank.py:88 | both exports take the selection when it is non-empty, else every visible row |
| QuoteBank.WordLabel | app_pages/3_Quote_Bank.py:89 | the Word button counts the selected rows, or the visible rows when none is selected |
| QuoteBank.CsvLabel | app_pages/3_Quote_Bank.py:118 | the CSV button is plain `CSV` without a selection and counts the selected rows with one |
| QuoteBank.DateOf | app_pages/3_Quote_Bank.py:98 | a missing or falsy timestamp gives `""`; a text timestamp gives its first ten characters; any other truthy value is a `TypeError` |
| QuoteBank.OptText | app_pages/3_Quote_Bank.py:99-102 | an argument is passed exactly when it is truthy |
| QuoteBank.OptQuality | app_pages/3_Quote_Bank.py:101 | an integer quality is passed, anything else is not |
| QuoteBank.BlockOf | app_pages/3_Quote_Bank.py:97-103 | a block is headed by the row's case type, a dash and its date |
| QuoteBank.BuildBlocks | app_pages/3_Quote_Bank.py:93-103 | the loop builds the blocks of the reference definition, stopping at the first row whose date cannot be cut |
| QuoteBank.ErrStays | app_pages/3_Quote_Bank.py:90-114 | once a prefix of the rows fails, the whole export fails with the same error |
| QuoteBank.BlocksOk | app_pages/3_Quote_Bank.py:90-114 | the export succeeds exactly when every row with a quote has a date that can be cut |
| QuoteBank.BlocksValue | app_pages/3_Quote_Bank.py:94-103 | one block per row with a quote, in row order, each headed by that row's case type and date; rows without a quote are skipped |
| QuoteBank.WordDownload | app_pages/3_Quote_Bank.py:87-114 | the Word button is offered exactly when the blocks can be built and are not empty, with those blocks and its label |
| QuoteBank.NoQuoteNoDownload | app_pages/3_Quote_Bank.py:104 | without a row holding a quote there is no Word button |
| QuoteBank.SelRows | app_pages/3_Quote_Bank.py:79-82 | the selection holds exactly the visible rows whose box is ticked, and no more rows than are visible |
| QuoteBank.SelCount | app_pages/3_Quote_Bank.py:75-78 | `sel_count` is the size of the selection, so never more than the visible rows |
| QuoteBank.HasQuote | app_pages/3_Quote_Bank.py:95-96 | a row gets a block exactly when it holds a truthy `key_quote` |
| QuoteBank.Blocks | app_pages/3_Quote_Bank.py:93-103 | a successful export has at most one block per row |
| Pagination.CeilDiv | components/pagination.py:19 | `math.ceil(a / b)`: the least whole number of `b`-sized pages covering `a` (mirrored for a negative divisor) |
| Pagination.TotalPages | components/pagination.py:19 | a page count exists exactly for a given positive count and a non-zero page size; it is at least 1 and the pages just cover the count |
| Pagination.ClampPage | components/pagination.py:20-21 | with a page count the page is moved down to the last page when beyond it, never below 0 from a non-negative page, and kept when in range; without one it is kept |
| Pagination.Pad3 | components/pagination.py:33 | a group of the thousands separator always has three digits |
| Pagination.Thousands | components/pagination.py:33 | the grouped count text is never empty |
| Pagination.InfoTextShape | components/pagination.py:30-35 | a zero count shows `0 <label>`; otherwise the text starts with `Page n`, and with a count and a page count it ends with the label |
| Pagination.PaginatedControls | components/pagination.py:8-49 | an enabled Previous click stores the page before and reruns, else an enabled Next click stores the page after and reruns, else the state is untouched and the offset is page times page size |
| Pagination.PageInRange | components/pagination.py:19-21 | with a page count the page shown lies between 0 and the last page and its offset lies inside the count |
| Pagination.NinetyFiveRows | components/pagination.py:19-21 | 95 rows of 20 make 5 pages, and a stored page 10 shows page 4 at offset 80 |
| Pagination.NextStaysInRange | components/pagination.py:22 | Next is enabled only below the last page, so the page it stores is still a page; with no count or a zero count it is disabled |
| Pagination.ZeroCountText | components/pagination.py:30-31 | a zero count shows `0 <label>` instead of a page number |
| Pagination.NatToStringSplit | components/pagination.py:33 | the decimal text of a number of at least 1000 is the text of its thousands followed by its last three digits |
| Pagination.ThousandsDigits | components/pagination.py:33 | removing the commas from `f"{n:,}"` gives the plain decimal text of `n` |
| Pagination.DigitsOnly | components/pagination.py:33 | a decimal text holds only digits |
| Pagination.IsLastPage | components/pagination.py:22 | Next is enabled exactly when there is a page count and the page after the current one is still below it |
| Pagination.StoredPage | components/pagination.py:18 | the page stored under the key, and 0 when none is stored |
| Pagination.InfoText | components/pagination.py:30-35 | a zero count shows `0 <label>`; any other count, known or not, shows a text starting with `Page ` |
| Filters.SelectedOrNone | components/filters.py:19-23 | an empty multiselect gives no filter, any other selection is passed as it is |
| Filters.TextSearch | components/filters.py:95-102 | an empty search gives no filter, any other text is passed as it is |
| Filters.DateRange | components/filters.py:59-71 | the start bound is the start date; the end bound is the end date followed by `T23:59:59` |
| Filters.StrLtSharedPrefix | components/filters.py:71 | a shared prefix does not change the text order of two timestamps |
| Filters.EndBoundCoversEndDay | components/filters.py:71 | in text order every timestamp of the end day up to 23:59:59 is at most the end bound, and every timestamp of a later day is above it |
| Filters.PrefixOrderExtends | components/filters.py:71 | two dates of the same length keep their text order whatever time follows them |
| Filters.AfterClear | components/filters.py:120-127 | exactly the keys of the prefix other than the button's own are gone, and the others keep their values |
| Filters.ClearFilters | components/filters.py:120-127 | a click deletes the prefix's keys one by one and leaves the clear state; no click changes nothing |
| Filters.ClearIdempotent | components/filters.py:124-126 | clearing twice is clearing once; keys outside the prefix and the button's own survive |
| Filters.ShortLabel | components/filters.py:41 | a name of at most 12 characters is kept; a longer one becomes its first 12 characters with the trailing whitespace removed, then `.` |
| Filters.LegendLabels | components/filters.py:40-41 | of the five bands only `NEEDS IMPROVEMENT` is shortened, to `NEEDS IMPROV.` |
| Filters.ParseHex | components/filters.py:43 | a non-empty run of hexadecimal digits is read, and its value fits in that many digits; any other text is rejected |
| Filters.HexRgb | components/filters.py:42-43 | each colour component read is at most 255 |
| Filters.BandColoursParse | components/filters.py:40-44 | every band colour of the table reads as three components, so the legend never raises |
| Filters.ColourParses | components/filters.py:42-43 | a `#` followed by six hexadecimal digits reads as three components |
| Filters.HexValueSnoc | components/filters.py:43 | the positional value of a digit run followed by one more digit is sixteen times the run's value plus that digit |
| Filters.ParseHexValue | components/filters.py:43 | a text read as hexadecimal gives the positional value of its digits, most significant first |
| Export.Quoted | utils/export.py:31 | the quote between two double quotes, unchanged |
| Export.MetaItems | utils/export.py:31-40 | one item per given argument and nothing else (a quality of 0 counts as given), in the fixed order case type, tone, quality, date: each item sits at the index given by the number of given arguments before it |
| Export.ZeroQualityMeta | utils/export.py:33-38 | an empty case type gives no item while a quality of 0 gives `Quality: 0/100` |
| Export.FormatQuoteForClipboard | utils/export.py:23-43 | the text starts with the quoted quote; with no meta item that is all; otherwise a line break and the items joined by ` \| ` follow |
| Export.JoinTwo | utils/export.py:43 | joining one part gives that part; joining two puts the separator between them |
| Export.ZeroQualityShown | utils/export.py:33-38 | a quality of 0 is shown while an empty case type is not |
| Export.FirstLineIsQuote | utils/export.py:31-43 | for a quote without a line break the first line is the quoted quote |
| Queries.WhereIn | utils/queries.py:83-88 | a list filter is added at the end exactly when the list is truthy |
| Queries.WhereText | utils/queries.py:91-94 | a text filter is added at the end exactly when the text is truthy |
| Queries.WhereIf | utils/queries.py:89-90 | the given filters are added at the end exactly when the condition holds |
| Queries.PagedWindow | utils/queries.py:79-82 | a positive offset asks for the range from the offset to offset plus limit minus 1; either way exactly `limit` rows (none for a negative limit) are requested |
| Queries.FetchQuotes | utils/queries.py:55-95 | the quote table windowed by `PagedWindow`, best quality first then newest, with exactly the quote filters of `QuotePreds` |
| Queries.CountQuotes | utils/queries.py:535-567 | an exact count of the same quote filters, unordered and unwindowed |
| Queries.SearchCalls | utils/queries.py:131-181 | the search columns, newest first, windowed, with exactly the filters of `SearchPreds` |
| Queries.CountCalls | utils/queries.py:570-613 | an exact count of the same search filters, unordered and unwindowed |
| Queries.FetchExplorerData | utils/queries.py:218-253 | the chosen columns joined by `, `, newest first, windowed, with exactly the filters of `ExplorerPreds` |
| Queries.CountExplorerRows | utils/queries.py:616-640 | an exact count of the same explorer filters, unordered and unwindowed |
| Queries.QuoteCountAgreesWithFetch | utils/queries.py:535-567 | `fetch_quotes` and `count_quotes` send the same filters, clause by clause; the fetch is windowed, the count is exact, unordered and unwindowed |
| Queries.CallCountAgreesWithSearch | utils/queries.py:570-613 | `search_calls` and `count_calls` send the same filters, clause by clause; the fetch is windowed, the count is exact, unordered and unwindowed |
| Queries.ExplorerCountAgreesWithFetch | utils/queries.py:616-640 | `fetch_explorer_data` and `count_explorer_rows` send the same filters; the fetch is windowed, the count exact and unordered |
| Queries.QuoteRowsRespectBounds | utils/queries.py:69-78 | every row a quote query keeps has a non-empty quote and a score within the slider's bounds |
| Queries.EmptyListIsNoFilter | utils/queries.py:83-94 | an empty list filter or an empty search text sends exactly what no filter sends |
| Queries.InFilterMeaning | utils/queries.py:84 | a list filter keeps exactly the rows whose column is one of the listed texts |
| Queries.ReplaceEachAppend | utils/queries.py:159-161 | the replacement chain works on a concatenation part by part |
| Queries.EscapeAppend | utils/queries.py:159-161 | the escaper works on a concatenation part by part |
| Queries.ReplaceCharSingle | utils/queries.py:159-161 | `str.replace` on one character gives the replacement exactly when it is that character |
| Queries.ReplaceEachAbsent | utils/queries.py:159-161 | replacing characters that do not occur changes nothing |
| Queries.ReplaceEachOne | utils/queries.py:159-161 | with distinct specials and the backslash replaced first, one character comes out escaped exactly once |
| Queries.Escape | utils/queries.py:159-161 | the seven replacements equal escaping character by character: one backslash before each special character |
| Queries.EscapeOne | utils/queries.py:159-161 | the escaper puts one backslash in front of a special character and leaves any other alone |
| Queries.EscapeIsPerCharacter | utils/queries.py:159-161 | the chain of seven replacements equals escaping character by character: the backslashes inserted later are never doubled, because backslash is replaced first |
| Queries.BackslashLastWouldDouble | utils/queries.py:159 | replacing the backslash after `%` would turn `%` into two backslashes and `%`, where the escaper gives one |
| Queries.UnescapeEscape | utils/queries.py:159-161 | dropping each escaping backslash gives back the searched text, so escaping loses nothing |
| Queries.EscapedPrefixMatch | utils/queries.py:159-165 | under SQL `ILIKE` with backslash escapes, the escaped text followed by `%` matches, ignoring case, exactly the texts it begins, whatever the searched text holds |
| Queries.IPrefixCons | utils/queries.py:163-165 | a case-insensitive prefix is a matching first character followed by a prefix of the rest |
| Queries.SearchPatternMeaning | utils/queries.py:159-166 | for a searched text without `*`, the pattern `%safe%`, as PostgREST reads it, matches a text exactly when the searched text occurs in it, ignoring case |
| Queries.EscapeNoStar | utils/queries.py:159-161 | the escaper adds no `*`, so a text without one gives a pattern without one |
| Queries.PlainSearchPattern | utils/queries.py:159-163 | a searched text with no special character is put between the two `%` unchanged |
| Queries.StarIsWildcard | utils/queries.py:159-165 | a `*` in the searched text is left unescaped, and PostgREST reads it as `%`: for `u` and `v` without special characters or `*`, the pattern for `u*v` matches `u`, then any text, then `v` |
| Queries.StarNotContained | utils/queries.py:159-165 | a searched text holding `*` does not occur in a text without one, so the wildcard match above is not a containment |
| Queries.LoneStarMatchesAll | utils/queries.py:159-165 | searching for `*` alone gives a pattern every text matches |
| Queries.SearchPredMeaning | utils/queries.py:159-166 | for a searched text without `*`, `,` or `)`, the text search keeps a row exactly when the text occurs, ignoring case, in its summary, quote or topic |
| Queries.Join3 | utils/queries.py:163-165 | three joined terms are separated by the separator |
| Queries.SearchFilterText | utils/queries.py:162-166 | the `.or_` text is `summary.ilike.`, `key_quote.ilike.` and `primary_topic.ilike.` terms with the pattern, comma-separated |
| Queries.RankAppend | utils/queries.py:296-297 | the number of scores below a mark adds up over a concatenation |
| Queries.RankSingle | utils/queries.py:296-297 | one score counts once exactly when it is below the mark |
| Queries.RankRemove | utils/queries.py:296-297 | removing one score removes exactly its share of the count |
| Queries.MultisetRemove | utils/queries.py:296 | removing one position removes exactly that score from the multiset |
| Queries.RankPermutation | utils/queries.py:296 | the count below a mark depends only on the scores, not their order, so sorting keeps it |
| Queries.RankBounds | utils/queries.py:296-297 | the count is at most the number of scores; none lie below a mark all scores reach; all lie at or below a mark none exceed |
| Queries.Median | utils/queries.py:296-297 | no scores give 0; otherwise the median is one of the scores |
| Queries.SortedRankBelow | utils/queries.py:297 | in an ascending list at most `k` scores lie below the `k`-th |
| Queries.SortedRankAtMost | utils/queries.py:297 | in an ascending list more than `k` scores are at most the `k`-th |
| Queries.MedianIsMiddle | utils/queries.py:296-297 | the median is one of the scores, at most half lie below it and more than half are at most it: for an even count the upper middle score |
| Queries.MedianOfNothing | utils/queries.py:297 | no scores give a median of 0 |
| Queries.OrZero | utils/queries.py:300-302 | `count or 0`: a missing count is 0, any other is kept |
| Queries.CurrentPeriod | utils/queries.py:260-305 | every one of the four queries is restricted to rows analysed at or after the cutoff; three are exact counts, the fourth reads the scores |
| Queries.PriorPeriod | utils/queries.py:307-357 | every one of the four queries is restricted to `[cutoff_prior, cutoff_current)`; three are exact counts, the fourth reads the scores |
| Queries.PriorWindowIsHalfOpen | utils/queries.py:307-320 | a row lies in the prior window exactly when it was analysed at or after twice the period ago and strictly before one period ago |
| Queries.QuoteCountsDiffer | utils/queries.py:266-271 | the prior quote count drops only NULL quotes while the current one also drops empty ones, so an empty quote is counted only in the prior window |
| Queries.Languages | utils/queries.py:30-41 | no duplicates, no empty value, and exactly the non-empty cleaned values of the raw list |
| Queries.GetLanguages | utils/queries.py:30-41 | the loop with its `seen` set builds the reference list |
| Queries.LanguagesIsDedupOfCleaned | utils/queries.py:34-41 | the list is the raw values cleaned, empty ones dropped, and duplicates removed keeping the first |
| Queries.PipelineQuery | utils/queries.py:396-411 | the pipeline table, all columns, best quality first, unwindowed, filtered on status and type exactly when they are given |
| Queries.StatusData | utils/queries.py:424-430 | the status, timestamp and updater always, and the notes as a fourth entry exactly when notes are given |
| Queries.UpdateTestimonialStatus | utils/queries.py:414-435 | one update of the pipeline table, with that payload, on the row with the given transcript id |
| Queries.EmptyNotesAreWritten | utils/queries.py:429-430 | empty notes are still written; only absent notes are left out |
| Queries.SearchPattern | utils/queries.py:159-165 | the pattern is the escaped text between two `%`, and dropping the escaping backslashes between them gives back the searched text |
| Queries.SearchPred | utils/queries.py:162-166 | one `.or_` filter over `summary`, `key_quote` and `primary_topic`, whose pattern holds the searched text, escaped, between the two `%` |
| Queries.QuotePreds | utils/queries.py:69-94 | every quote filter is a plain comparison, at least the four fixed ones, the first two requiring a non-NULL, non-empty quote |
| Queries.ExplorerPreds | utils/queries.py:235-250 | every explorer filter is a plain comparison, starting with the two quality bounds |
| Postgrest.Where | utils/database.py:45 | one more filter call appends that filter and changes nothing else |
| Postgrest.OrderBy | utils/database.py:69 | one more `.order` call appends that sort key and changes nothing else |
| Postgrest.Wildcards | utils/queries.py:163-165 | PostgREST reads every `*` of a `like`/`ilike` value as `%`, escaped or not, and leaves every other character alone |
| Postgrest.MatchPercentAll | utils/queries.py:163 | the pattern `%` matches every text |
| Postgrest.MatchLeadingPercent | utils/queries.py:163 | a leading `%` lets the rest of the pattern match any suffix of the text |
| Postgrest.Terms | utils/queries.py:162-166 | one `col.ilike.pattern` term per searched column, in order |
| Database.OrderFor | utils/database.py:67-71 | at most one sort key, none exactly when no order text is given; `-col` sorts descending on `col` |
| Database.EntryPred | utils/database.py:42-65 | an entry adds at most one filter, on its own column with its own value; a plain value adds `eq`, a tuple adds one exactly when its operator is one of the ten names |
| Database.Compiled | utils/database.py:40-65 | the dictionary compiles to at most one column filter per entry |
| Database.WindowFor | utils/database.py:73-76 | an offset, even 0, gives a range starting there of `limit or 50` rows; otherwise a limit bounds the rows and without both there is no bound |
| Database.QueryTable | utils/database.py:17-78 | the request has the table, the selection, the filters of the dictionary in its order, the order and the window |
| Database.CompiledMeaning | utils/database.py:40-65 | a row passes the compiled filters exactly when it satisfies the filter of every entry that adds one |
| Database.CompiledColumns | utils/database.py:40-65 | each entry adds at most one filter, and every compiled filter is the filter of some entry, on that entry's column |
| Database.CompiledColumnsDistinct | utils/database.py:40-65 | with a dictionary's distinct keys no two compiled filters share a column, so each column carries at most one predicate |
| Database.EntryPredCases | utils/database.py:42-65 | a plain value becomes an `eq` filter; a tuple whose operator is not among the ten names, `"eq"` included, adds nothing |
| Database.OrderForms | utils/database.py:67-71 | `-col` sorts descending on `col`; any other non-empty text sorts ascending on itself |
| Database.WindowRows | utils/database.py:73-76 | with an offset, even 0, the window is `limit or 50` rows from it; otherwise a limit bounds it, and without both there is no bound |
| Database.UpdateRow | utils/database.py:111-117 | the update carries the table and the data and one `eq` filter per `match` entry, in order |
| Database.UpdateTargets | utils/database.py:115-116 | an update touches exactly the rows equal to every `match` value |
| Database.DistinctQuery | utils/database.py:124-130 | the request selects the column from the table and excludes NULLs |
| Database.DistinctQueryMeaning | utils/database.py:127 | `.not_.is_(column, "null")` keeps exactly the rows where the column is not NULL |
| Database.TruthyValues | utils/database.py:131 | the values kept are exactly the truthy values of the column |
| Database.TextsMembers | utils/database.py:131 | the texts of a list of text values are exactly its texts |
| Database.DistinctValues | utils/database.py:120-131 | strictly ascending, hence without duplicates, and exactly the non-empty texts of the column; a truthy non-text value is an error |
| CallDataExplorer.SelectColumns | app_pages/7_Call_Data_Explorer.py:43-54 | the two loops build exactly the active columns with repeats dropped at their first occurrence |
| CallDataExplorer.ActiveColumnsMembers | app_pages/7_Call_Data_Explorer.py:43-46 | a column is in the concatenated list exactly when some checked group lists it |
| CallDataExplorer.SelectedColumnsFacts | app_pages/7_Call_Data_Explorer.py:43-54 | the queried columns have no repeats, are exactly the columns of the checked groups, and keep the order in which each first appears |
| CallDataExplorer.DedupNoDup | app_pages/7_Call_Data_Explorer.py:48-54 | the `seen` loop leaves a list without repeats unchanged |
| CallDataExplorer.OnlyFirstActive | app_pages/7_Call_Data_Explorer.py:36-46 | with only the first group checked, the column list is that group's columns |
| CallDataExplorer.DefaultIsCore | app_pages/7_Call_Data_Explorer.py:36-40 | with no check box touched only `Core` is on, so the table gets the `Core` columns in their order |
| CallDataExplorer.NoColumnsIffNoGroup | app_pages/7_Call_Data_Explorer.py:56-58 | the column list is empty exactly when no group is checked, since every group lists a column |
| CallDataExplorer.ExplorerStart | app_pages/7_Call_Data_Explorer.py:43-64 | the page stops with nothing written exactly when no column is selected; otherwise it carries the selected columns and resets the page only when the filters changed |
| CallDataExplorer.DisplayCell | app_pages/7_Call_Data_Explorer.py:103-110 | NULL shows as an em dash, lists and objects as their JSON text, every other value unchanged |
| CallDataExplorer.ShortTranscriptId | app_pages/7_Call_Data_Explorer.py:113-116 | a text id longer than 8 becomes its first 8 characters and an ellipsis; any other value stays; a shortened id is at most 9 long |
| CallDataExplorer.ShortIdIsPrefix | app_pages/7_Call_Data_Explorer.py:113-116 | the shortened id starts with the first characters of the id and is never longer than 9 |
| CallDataExplorer.SubScoreParts | app_pages/7_Call_Data_Explorer.py:129-135 | one part per listed key that is present and not NULL, and no other part; none exactly when no listed key is present; the first key's part first |
| CallDataExplorer.SubScorePartsOrder | app_pages/7_Call_Data_Explorer.py:131-135 | the part of each present key sits at the index given by the number of present keys listed before it, so the parts follow the order of the list |
| CallDataExplorer.FmtSubScores | app_pages/7_Call_Data_Explorer.py:120-136 | a dash or NULL gives a dash; a text is JSON-parsed, and stays as it is when it is not JSON, not an object, or an object with none of the four keys; an object with some of them, parsed or given, becomes the parts joined by ` \| ` |
| CallDataExplorer.AllFourSubScores | app_pages/7_Call_Data_Explorer.py:129-136 | an object with all four scores lists Case, Narr, Agent and Compl in that fixed order |
| CallDataExplorer.CallLabel | app_pages/7_Call_Data_Explorer.py:169 | the label is a missing or empty id read as `unknown`, cut to `n` characters, then the suffix, whatever the id's length |
| CallDataExplorer.ExplorerLabel | app_pages/7_Call_Data_Explorer.py:169 | the label of this page is never longer than 9 characters |
| CallDataExplorer.MissingIdLabel | app_pages/7_Call_Data_Explorer.py:169 | a missing id is labelled with the first 8 letters of `unknown` and an ellipsis |
| CallDataExplorer.ZeroQualityNotice | app_pages/7_Call_Data_Explorer.py:93-96 | the notice appears only with a `quality_score` column and some row scoring 0, and then counts exactly those rows |
| CallDataExplorer.IsActive | app_pages/7_Call_Data_Explorer.py:36-40 | a group is on when its box is ticked; a box never touched is on for `Core` only |
| CallDataExplorer.ActiveColumns | app_pages/7_Call_Data_Explorer.py:43-46 | with no group on there are no columns; when the last group is on, the list ends with its columns |
| CallDataExplorer.SelectedColumns | app_pages/7_Call_Data_Explorer.py:43-54 | the queried columns hold no repeats and are exactly the columns of the groups that are on |
| CallDataExplorer.IsZeroQuality | app_pages/7_Call_Data_Explorer.py:93-94 | a row matches only when it has a falsy `quality_score`, and every integer score 0 matches |
| LegacyCallDataExplorer.LegacyStart | pages/4_Call_Data_Explorer.py:34-58 | the page stops exactly when no group is checked; otherwise it queries the selected columns, which hold no repeats |
| LegacyCallDataExplorer.LegacyPage | pages/4_Call_Data_Explorer.py:61 | without a row count the stored page is used as is, and only Previous on a page after the first reruns the script, one page back |
| LegacyCallDataExplorer.NextNeverEnabled | pages/4_Call_Data_Explorer.py:61 | with no count there is no page count, the page is never clamped and every page counts as the last, so Next never moves |
| LegacyCallDataExplorer.LegacyLabel | pages/4_Call_Data_Explorer.py:122 | the label ends in three dots, shows the first 16 characters of a long id and the whole of a short one, and is at most 19 long |
| LegacyCallDataExplorer.LegacyMissingIdLabel | pages/4_Call_Data_Explorer.py:122 | a missing or empty id is labelled `unknown...` |
| AngleBank.StatusOrDefault | app_pages/9_Angle_Bank.py:239-242 | the status filter is never empty: the chosen statuses when there are any, both statuses when none is chosen |
| AngleBank.AngleFilters | app_pages/9_Angle_Bank.py:237-254 | the filters always hold the status list and the minimum quality; the content types exactly when some are chosen; the start date exactly when one is given; the maximum quality never |
| AngleBank.FetchAngles | app_pages/9_Angle_Bank.py:257-264 | the request reads `content_generation_queue` with those filters, newest first, at most 200 rows |
| AngleBank.AngleRowsMatch | app_pages/9_Angle_Bank.py:237-264 | every row the server returns has a chosen status and at least the minimum quality |
| AngleBank.ParseContent | app_pages/9_Angle_Bank.py:50-60 | an object is used as it is, a text is parsed with `{}` for text that is not JSON, and any other value gives `{}` |
| AngleBank.AboveMax | app_pages/9_Angle_Bank.py:271 | a missing score never excludes a row, a number is compared with the maximum, and a score of any other type raises |
| AngleBank.AfterEnd | app_pages/9_Angle_Bank.py:276 | an empty or missing date never excludes a row; a text date excludes it exactly when its first ten characters sort after the end date |
| AngleBank.IntentMissing | app_pages/9_Angle_Bank.py:280-283 | content that is not an object raises; an object is kept exactly when its intent is one of the chosen ones |
| AngleBank.Survivors | app_pages/9_Angle_Bank.py:267-285 | the loop succeeds exactly when no row raises; then every kept row is a fetched row that passes all filters |
| AngleBank.SurvivorsIsFilter | app_pages/9_Angle_Bank.py:267-285 | when no row raises, the kept rows are exactly the passing rows in their fetch order |
| AngleBank.PostFilter | app_pages/9_Angle_Bank.py:266-285 | the loop with its `continue`s keeps the passing rows, or stops with the first exception a row raises |
| AngleBank.SurvivorsErr | app_pages/9_Angle_Bank.py:266-285 | an exception in some row after passing rows is the outcome of the whole loop |
| AngleBank.DisjointCounts | app_pages/9_Angle_Bank.py:297-298 | two counts over conditions that exclude each other add up to at most the number of rows |
| AngleBank.PendingApprovedBound | app_pages/9_Angle_Bank.py:297-300 | the pending and approved metrics together never exceed the total |
| AngleBank.ContentTypeCounts | app_pages/9_Angle_Bank.py:303-306 | the loop yields the occurrence count of every content type, `other` standing for a missing one |
| AngleBank.TypeBreakdown | app_pages/9_Angle_Bank.py:303-311 | the counts add up to the number of shown rows, list each type once in first-seen order, give each type its number of rows, and the summary sorted by count keeps the same total |
| AngleBank.AnglePages | app_pages/9_Angle_Bank.py:319 | there is at least one page, and for rows the pages are just enough to hold them twenty at a time |
| AngleBank.AnglePage | app_pages/9_Angle_Bank.py:320 | the page is the stored one or the last one, whichever is smaller; there is no lower clamp |
| AngleBank.ShownRowsRange | app_pages/9_Angle_Bank.py:340-343 | for a page that is not negative, the cards are one run of 1 to 20 rows, starting on an existing row |
| AngleBank.EveryRowHasAPage | app_pages/9_Angle_Bank.py:316-343 | every row is shown on page `i // 20`, which is never clamped |
| AngleBank.AngleNav | app_pages/9_Angle_Bank.py:316-337 | Previous off the first page stores the page before and reruns; otherwise Next before the last page stores the page after and reruns; otherwise nothing is stored and the page's rows are shown |
| AngleBank.NavStaysInRange | app_pages/9_Angle_Bank.py:324-337 | from a page that is not negative, Next and Previous store pages inside the page range |
| AngleBank.QualityColour | app_pages/9_Angle_Bank.py:108 | green exactly from 75, amber exactly from 60 below 75, red exactly below 60 |
| AngleBank.QualityColourMonotone | app_pages/9_Angle_Bank.py:108 | a higher score never gets a lower colour tier |
| AngleBank.ShownQuotes | app_pages/9_Angle_Bank.py:113-118 | the truthy quotes among the first three of the list, every one of them and in their order; none when the value is not a list |
| AngleBank.BadgeColoursParse | app_pages/9_Angle_Bank.py:63-66 | every badge colour of the page splits into three hex components, so `_badge` never raises on them |
| AngleBank.Keep | app_pages/9_Angle_Bank.py:268-285 | a row is kept exactly when it is not above the maximum quality, not after the end date, and, when intents are chosen, has one of them; a row above the maximum is dropped before its date or intent is looked at |
| AngleBank.ContentTypeOf | app_pages/9_Angle_Bank.py:305 | the row's content type, and `other` when it has none |
| AngleBank.ShownRows | app_pages/9_Angle_Bank.py:340-343 | the cards shown are never more than the filtered rows, and never more than 20 from a page that is not negative |
| Counter.CountAllGet | pages/4_Tags.py:43-45 | after the counting loop each key's count is its number of occurrences |
| Counter.CountAllKeys | pages/4_Tags.py:34-45 | the counted keys are the distinct tags in the order they were first seen |
| Counter.CountAllTotal | pages/4_Tags.py:34-45 | the counts add up to the number of tags visited |
| Counter.SortByCount | pages/4_Tags.py:59 | the sorted listing runs by non-increasing count and is a permutation of the dictionary's entries |
| Counter.SortByCountStable | pages/4_Tags.py:59 | the sort is stable: entries of equal count keep their dictionary order |
| Counter.TopCountsDominate | pages/4_Tags.py:59 | in a sorted listing every entry among the first `n` has at least the count of every entry after them |
| TagPages.Payload | pages/4_Tags.py:36-42 | a falsy value gives no elements; a list gives its elements; a text gives the elements of the list it decodes to, and nothing when it does not decode to a list |
| TagPages.Kept | pages/4_Tags.py:42-44 | the counted tags of one list are exactly its text elements passing the page's condition |
| TagPages.AllTagsMembers | pages/4_Tags.py:35-45 | a tag is counted exactly when it passes the page's condition and some row's list holds it as text |
| TagPages.CountTags | pages/4_Tags.py:34-45 | the nested loops build the occurrence counts of every counted tag of every row |
| TagPages.CountRow | pages/4_Tags.py:42-45 | the inner loop over one row's list extends the counts of the tags seen so far by that row's counted tags |
| TagPages.TagCountFacts | pages/4_Tags.py:34-45 | the counts add up to the number of counted tags, give each tag its occurrences, list each tag once in first-seen order, and list only tags passing the condition |
| TagPages.Ranked | pages/4_Tags.py:59 | the top `n` entries: at most `n`, by non-increasing count, a prefix of the sorted listing, all of them when there are no more than `n` |
| TagPages.RankedFacts | pages/4_Tags.py:59 | the top entries are entries of the counts, and none left off has a higher count than one listed |
| TagPages.SearchTags | pages/4_Tags.py:68-69 | the search keeps exactly the entries whose lower-cased tag contains the lower-cased search text, in ranking order |
| TagPages.FilterNonIncreasing | pages/4_Tags.py:69 | dropping entries from a ranking leaves a ranking |
| TagPages.Partition | pages/4_Tags.py:127-134 | the loop groups every row with a parent under its parent id, records the ids in first-seen order, and collects the rows without a parent as orphans |
| TagPages.GroupsMeaning | pages/4_Tags.py:127-134 | a parent id is a key exactly when some row names it, and its list is exactly the rows naming it, in taxonomy order |
| TagPages.GroupOrderKeys | pages/4_Tags.py:127-136 | the key order lists every parent id once and only the keys |
| TagPages.PartitionExact | pages/4_Tags.py:127-134 | every row lands either among the orphans or in the one group of its own parent, and both keep the taxonomy order |
| TagPages.BuildNames | pages/4_Tags.py:121-125 | the loop maps each tag id to its name, a later row overwriting an earlier one |
| TagPages.NamesMeaning | pages/4_Tags.py:121-125 | an id is named exactly when some row carries it, and its name comes from the last such row |
| TagPages.ParentLabel | pages/4_Tags.py:137 | a known parent shows its name, an unknown one `Category {id}` |
| TagPages.InsertByKey | pages/4_Tags.py:136 | inserting into a key-sorted list keeps it sorted and adds exactly that entry |
| TagPages.SortByKey | pages/4_Tags.py:136 | the sort by text key yields a sorted permutation of its input |
| TagPages.StrLeTransitive | pages/4_Tags.py:136 | the text order used as sort key is transitive |
| TagPages.StrNotLt | pages/4_Tags.py:136 | the text order is total: a text not below another is at least it |
| TagPages.NameKeyed | pages/4_Tags.py:136 | every parent id is keyed by its resolved name, `""` when it has none |
| TagPages.ParentsByName | pages/4_Tags.py:136 | the sorted parents are all the parent ids, once each, in non-decreasing order of resolved name |
| TagPages.GroupsOfAt | pages/4_Tags.py:136-142 | the expander at each position shows that parent's label and the rows under it |
| TagPages.GroupsOfSnoc | pages/4_Tags.py:136-142 | one more parent adds exactly its expander at the end |
| TagPages.Expanders | pages/4_Tags.py:136-142 | the loop over the sorted parents yields one expander each, in the sorted order |
| TagPages.SortedParentKnown | pages/4_Tags.py:136 | every parent the name sort yields is a key of the dictionary, holding the rows naming it |
| TagPages.BrowseTaxonomy | pages/4_Tags.py:120-149 | the browser yields the expanders in name order and the orphans in taxonomy order |
| TagPages.TaxonomyGroupsSorted | pages/4_Tags.py:136-138 | there is one expander per parent id, sorted by resolved name |
| TagPages.TaxonomyGroupsContent | pages/4_Tags.py:136-142 | each expander holds the non-empty list of rows naming its parent, in taxonomy order, headed by the parent's name or `Category {id}` |
| TagPages.TaxonomyGroupsCover | pages/4_Tags.py:127-138 | a parent id has an expander exactly when some row names it |
| TagPages.BaselineCases | pages/4_Tags.py:192 | no previous week means no baseline; a previous week at least as large always is one; one under a tenth of this week is not |
| TagPages.HasBaseline | pages/4_Tags.py:192 | a baseline exactly when last week is positive and at least this week times 0.10, in exact arithmetic |
| TagPages.Freq | pages/4_Tags.py:190-191 | `row.get(key) or 0`: an integer count as it is, `True` as 1, anything falsy as 0 |
| TagPages.SumFreq | pages/4_Tags.py:190-191 | the sum of no rows is 0, of non-negative counts is non-negative, and of rows without a truthy count is 0 |
| TagPages.DeltaText | pages/4_Tags.py:201-207 | a rise shows a plus sign, no change `0`, a fall a minus sign, each with the size of the change |
| TagPages.WowLineOf | pages/4_Tags.py:200-207 | a line carries the row's count this week and the text of its change from last week |
| TagPages.ShownCategories | pages/4_Tags.py:176-182 | the filter keeps every real category, drops junk and non-text ones when the column exists, and keeps the frame as it is without the column |
| TagPages.WeekOverWeek | pages/4_Tags.py:196-208 | the loop with its `continue` yields the weekly lines of the rows that pass the skip test |
| TagPages.WeeklyLinesMeaning | pages/4_Tags.py:196-208 | one line per row passing the skip test, in frame order, each from its own row |
| TagPages.WeeklyOf | pages/4_Tags.py:189-210 | without both weekly columns there is no trend block; with them the changes appear exactly when there is a baseline, and the notice otherwise |
| TagPages.WeeklyCoversShown | pages/4_Tags.py:176-208 | after the view filter every remaining row gets its line; without a category column no row does |
| TagPages.ObjectionInsights | pages/4_Tags.py:160-250 | a non-empty view is charted after the junk filter with its weekly block; otherwise the filtered fallback count is charted, or no-data when empty, or unavailable when the query raised |
| TagPages.JunkTestsDiffer | pages/4_Tags.py:176-233 | the fallback count keeps a padded ` none ` that the view filter drops, and both drop `None` |
| TagPages.PaddedNoneStrips | pages/4_Tags.py:180 | stripping ` none ` gives the junk word `none` |
| TagPages.LowerNoneSpellings | pages/4_Tags.py:233 | both spellings `none` and `None` lower-case to the junk word |
| TagPages.AllTags | pages/4_Tags.py:34-45 | every tag the nested loops count passes the page's condition |
| TagPages.Groups | pages/4_Tags.py:127-134 | no group is keyed by a missing parent id, and every group holds at least one row |
| TagPages.GroupOrder | pages/4_Tags.py:127-136 | the key order holds no missing parent id and has at most one entry per row |
| TagPages.Names | pages/4_Tags.py:121-125 | no name is stored for a missing tag id |
| TagPages.RealCategory | pages/4_Tags.py:176-182 | a category the view filter keeps is text that is not blank |
| TagPages.CountedCategory | pages/4_Tags.py:233 | a category the fallback count keeps is not blank, and its lower case, unstripped, is none of the view filter's junk words |
| TagPages.CategoryLabel | pages/4_Tags.py:204 | the label of a category is its `humanize` form: the same length, no underscore left, each character title-cased after the one before it |
| TagPages.WeeklyLines | pages/4_Tags.py:196-208 | the week-over-week loop prints at most one line per row |
| TagsPage4.GetTagCounts | pages/4_Tags.py:22-48 | a raised query gives no counts; otherwise the count of every non-blank text tag |
| TagsPage4.TagCountsNonBlank | pages/4_Tags.py:34-45 | a tag is counted exactly when it is non-blank text in some row's list; the counts add up and give each tag its occurrences |
| TagsPage4.FallbackView | pages/4_Tags.py:51-72 | no counts give no-data; a search that matches none of the top 50 gives the no-match caption; otherwise buttons for the top 50 in order, narrowed by the search when there is one |
| TagsPage4.ShowFallbackTags | pages/4_Tags.py:51-72 | the fallback renders the counts of non-blank tags, or no-data when their query raised |
| TagsPage4.TagBrowser | pages/4_Tags.py:117-153 | a non-empty taxonomy gives the tree; an empty one and a raised query both give the fallback |
| TagsPage4.Objections | pages/4_Tags.py:160-250 | the objection section of this page, with the collecting caption when there is no baseline |
| TagsPage4.ObjectionCountsFiltered | pages/4_Tags.py:223-234 | a category is counted exactly when it is non-blank, not junk in lower case, and in some row; a padded ` none ` is counted |
| TagsPage5.Tier | pages/5_Tags.py:49-56 | tier 3 exactly above 100 uses, 2 above 50, 1 above 20, 0 otherwise |
| TagsPage5.TagStyle | pages/5_Tags.py:49-56 | each count gets the style of its tier |
| TagsPage5.TierMonotone | pages/5_Tags.py:49-56 | more uses never give a smaller badge, and 100, 50 and 20 uses stay in the tier below |
| TagsPage5.BadgesOf | pages/5_Tags.py:58-67 | one badge per ranked entry, in order, carrying its tag, its count and the style of that count |
| TagsPage5.ShowFallbackTags | pages/5_Tags.py:20-72 | a raised query gives the unavailable caption; no text tags give no-data; otherwise badges for the 50 most used text tags |
| TagsPage5.CloudFacts | pages/5_Tags.py:47-64 | the cloud holds at most 50 badges, each a counted entry, in non-increasing count and tier |
| TagsPage5.EmptyTagCounted | pages/5_Tags.py:40-43 | an empty text tag in some row is counted, so it can get a badge |
| TagsPage5.TagBrowser | pages/5_Tags.py:78-114 | a non-empty taxonomy gives the tree; an empty one and a raised query both give the badge cloud |
| TagsPage5.Objections | pages/5_Tags.py:121-211 | the objection section of this page, with the baseline-week notice when there is no baseline |
| TagsPage8.TagBrowser | pages/8_Tags.py:20-91 | a non-empty taxonomy gives the tree, an empty one the info message, and only a raised taxonomy query the list of the 50 most used text tags |
| TagsPage8.WeekOverWeek | pages/8_Tags.py:117-127 | the loop yields one line per row of the frame, with the category printed as it is |
| TagsPage8.Objections | pages/8_Tags.py:98-171 | a view lacking a chart column makes the section fail; a chartable one shows a line for every row when both weekly columns exist; otherwise the unfiltered fallback count and its top eight |
| TagsPage8.EveryRowHasLine | pages/8_Tags.py:117-127 | with no baseline guard every row gets a line with its category printed as it is and its own weekly counts |
| TagsPage8.JunkCounted | pages/8_Tags.py:150-152 | the unfiltered count lists `none` whenever some row holds it |
| TagsPage8.TopEight | pages/8_Tags.py:163-166 | the top list holds at most eight counted categories by non-increasing count, and none left off outranks one listed |
| TagsPage8.PlainLines | pages/8_Tags.py:117-127 | one line per row of the frame, none skipped |
| Seqs.Dedup | app_pages/7_Call_Data_Explorer.py:48-54 | the result has no repeats and holds exactly the elements of the input |
| Seqs.DedupFirstOccurrenceOrder | app_pages/7_Call_Data_Explorer.py:48-54 | the kept elements appear in the order of their first occurrence |
| Seqs.DedupInOrder | app_pages/7_Call_Data_Explorer.py:48-54 | the loop with its `seen` set keeps each element at its first occurrence |
| Strings.SortedSet | utils/database.py:131 | `sorted(set(...))` gives the distinct texts, each once, in strictly ascending order |
| Strings.Strip | utils/constants.py:211 | the stripped text starts and ends with no whitespace (the ASCII whitespace, U+001C..U+001F included), and is empty exactly when the text is all whitespace |
| Strings.StripIsInner | utils/constants.py:211 | the stripped text is the part of the text between a leading and a trailing run of whitespace |
| PyValue.DictGet | app_pages/7_Call_Data_Explorer.py:133 | a key is found exactly when the object has an entry with that key, and then its value is that entry's |
| PyValue.Text | app_pages/3_Quote_Bank.py:98 | `f"{v}"`: a text is kept as it is, any other value goes through `str` |
| TestimonialPipeline.NextStatus | app_pages/8_Testimonial_Pipeline.py:36-41 | a next status exists exactly for the four statuses before `published` |
| TestimonialPipeline.NextStatusChain | app_pages/8_Testimonial_Pipeline.py:36-44 | each column but the last moves to the column on its right; `published` and `declined` have no successor; no move leads back to `flagged` |
| TestimonialPipeline.FourStepsToPublished | app_pages/8_Testimonial_Pipeline.py:36-41 | four moves take a flagged item to published |
| TestimonialPipeline.Choice | app_pages/8_Testimonial_Pipeline.py:47-50 | the select box's `"All"` applies no filter and any other choice filters on itself |
| TestimonialPipeline.BoardQuery | app_pages/8_Testimonial_Pipeline.py:47-50 | the board's query is the pipeline query for the two choices, unfiltered when both are `"All"` |
| TestimonialPipeline.PlaceOf | app_pages/8_Testimonial_Pipeline.py:55-60 | an item placed in a column is placed in one of the five kanban columns |
| TestimonialPipeline.PlaceCases | app_pages/8_Testimonial_Pipeline.py:56-60 | an item without a status lands in `flagged`; a NULL or unknown status lands nowhere |
| TestimonialPipeline.Bucket | app_pages/8_Testimonial_Pipeline.py:53-60 | the loop builds, for each column, the items placed there in their order, and the declined items in their order |
| TestimonialPipeline.BoardAppend | app_pages/8_Testimonial_Pipeline.py:55-60 | one more item extends exactly the column or declined list it belongs to and leaves the others unchanged |
| TestimonialPipeline.ItemsAtAppend | app_pages/8_Testimonial_Pipeline.py:55-60 | the items at a place after one more item are the old ones plus the new one exactly when it belongs there |
| TestimonialPipeline.BucketsPartition | app_pages/8_Testimonial_Pipeline.py:53-60 | the declined list and the five columns together hold each non-dropped item exactly once, and never more than there are items |
| TestimonialPipeline.ShownItems | app_pages/8_Testimonial_Pipeline.py:73 | a column shows the first twenty of its items, or all of fewer |
| TestimonialPipeline.DeclineOnlyEarly | app_pages/8_Testimonial_Pipeline.py:75-80 | a column offering Decline also offers a move to a status before `published`; `recorded` and `published` offer no Decline |
| TestimonialPipeline.MoveCard | components/cards.py:192-201 | the Move button exists exactly when the status has a successor; it writes that status, with no notes, to the item's row |
| TestimonialPipeline.DeclineCard | app_pages/8_Testimonial_Pipeline.py:80-85 | Decline exists exactly in the early columns; it writes `declined` and the text of the reason box, even an empty one, to the item's row |
| TestimonialPipeline.RestoreCard | app_pages/8_Testimonial_Pipeline.py:102-103 | Restore writes `flagged`, with no notes, to the item's row |
| TestimonialPipeline.RestoreKeepsNotes | utils/queries.py:424-430 | restoring writes no `notes` entry, so the decline reason stays on the row, while declining always writes one |
| TestimonialPipeline.DeclinedQuote | app_pages/8_Testimonial_Pipeline.py:98-99 | an empty quote shows nothing; any other shows its first 80 characters followed by `...` |
| TestimonialPipeline.DeclinedDotsAlways | app_pages/8_Testimonial_Pipeline.py:98-99 | a short quote gets the dots in the declined list although the card's cut keeps it whole |
| TestimonialPipeline.StatusOf | app_pages/8_Testimonial_Pipeline.py:56 | the item's status, and `flagged` when it has none |
| TestimonialPipeline.ItemsAt | app_pages/8_Testimonial_Pipeline.py:55-60 | the items put at a place are exactly the items belonging there, never more than all items |
| TestimonialPipeline.Board | app_pages/8_Testimonial_Pipeline.py:53-60 | the board has exactly the five kanban columns, and each column holds exactly the items whose status is that column's |
| TestimonialPipeline.DeclineOffered | app_pages/8_Testimonial_Pipeline.py:80 | Decline is offered exactly in the first three kanban columns |
| TestimonialPipeline.SidOf | app_pages/8_Testimonial_Pipeline.py:74 | the item's transcript id when it is text, and `""` when it has none |

## Left out

- Streamlit rendering: widgets, columns, HTML and markdown text, `st.rerun` and `st.stop`. Clicks and widget values are inputs, and a page's outcome is a datatype.
- The Supabase client and the network: `.execute()`, the RPCs and the auth procedures are parameters or oracles, and a failed query is `None`. Which rows the server holds is not modelled.
- `st.cache_data` and `st.cache_resource`: memoisation with a time to live, which has no logic to model.
- Floating point: `format_case_value`, the agent-score bars, cost formatting and the System Health pages. Scores are integers except where a band or colour compares a `real`.
- Dates and clocks: `datetime.utcnow`, `isoformat`, `strftime` and `pd.to_datetime`. Timestamps are integers or ISO texts passed in, and `get_last_updated` is not modelled.
- Text handling is ASCII only: `str.strip`, `str.isspace` and the regular expression `\s` cover the ASCII whitespace, including the separators U+001C..U+001F, but not non-ASCII whitespace such as U+0085 or U+00A0; `str.lower` and `re.IGNORECASE` cover ASCII letters only, `\d` covers the ASCII digits only, and there is no Unicode case folding.
- `html.escape` and the HTML of `metric_card`, `quote_card`, `call_card`, `angle_card` and the tag badges. Only the values these cards compute are modelled.
- `utils/queries.py` reads with no logic beyond a single query or RPC, which are not modelled: `get_call_detail`, `get_transcript`, `get_daily_volume`, `get_system_status`, `get_cost_tracking`, `get_drift_alerts`, `get_prompt_library`, `get_last_updated` and `get_pipeline_stats`.
- `get_top_quotes` is not modelled: a single `fetch_quotes` call, with the builder modelled by `Queries.FetchQuotes`.
- `get_case_types`, `get_emotional_tones` and `get_outcomes` are not modelled: each is a single call of `get_distinct_values`, which `Database.DistinctValues` models.
- `utils/database.py`: `upsert_row`, `run_rpc` and `query_df` are direct client calls, and the PostgREST `*` select is kept as text.
- `download_csv` and `generate_word_doc`: file encoding. The rows and blocks they receive are modelled.
- pandas: a frame is a list of rows. A missing cell (NaN) is read as `None`, or as 0 in the weekly counts.
- JSON objects keep their entries in order. A duplicated key is not modelled, and `PyValue.DictGet` finds the first entry where `json.loads` keeps the last.
- Python dictionary keys are compared as model values, so `1`, `1.0` and `True` are three different keys, and unhashable keys are not modelled.
- Queries.SearchPatternMeaning: holds only for a searched text without `*`. The escaper leaves `*` alone and PostgREST reads it as `%`, so such a text is a wildcard search (`Queries.StarIsWildcard`, `Queries.LoneStarMatchesAll`); not even `\*` would give a literal `*`, since PostgREST turns it into `\%`.
- Queries.SearchPredMeaning: holds only for a searched text without `*`, `,` or `)`. The `*` case is above; the `.or_` text is not parsed, and in PostgREST's or-syntax a `,` or `)` ends an unquoted value, so what the server makes of such a text is not modelled.
- Pagination.PaginatedControls: requires the stored page to be an integer, as every writer of it stores one.
- LegacyCallDataExplorer.LegacyPage: requires the stored page to be an integer, for the same reason.
- AngleBank.AngleNav: requires the stored page to be an integer, for the same reason.
- AngleBank.AfterEnd: the end date is always present, since the date widget always returns one.
- QuoteBank.OptQuality: only an integer quality is shown in a Word block, and a float quality counts as missing.
- Database.DistinctValues: reports a column holding any truthy non-text value as an error, although Python also sorts a column of numbers only.
- TagPages.HasBaseline: multiplies by `0.10` as an exact rational number, where the code multiplies by the float `0.10` and rounds.
- TagPages.Freq: reads a float or text frequency as 0; Python would add a float and raise on a text.
- QuoteBank.DateOf: reports a list, which Python would slice, as a `TypeError` like any other non-text timestamp.
- Cards.RenderField: for an object holding a list or dict value, Python draws the label and the captions of the entries before that value, then raises; the model gives only the error.
- Filters.ParseHex: rejects the surrounding whitespace, sign, `0x` prefix and `_` separators that `int(s, 16)` accepts. No colour of the fixed band table has any of them.
- `utils/db.py` defines no `register_user`, although `utils/auth.py` imports it; the model treats it as an oracle whose reply is a value or a raised message, which the `except` of the create-account tab catches (utils/auth.py:113-131).
- `validate_session`, `authenticate_user` and `create_session` are oracles that always reply with a value. In the source an exception from their RPCs is not caught and escapes `check_password` (utils/auth.py:26, 71, 74). That error path is not modelled, nor is the same exception raised during the sign-in after registration, where the create-account `except` would catch it.
- `query_table` unpacks a tuple filter with `op, v = val`, which raises `ValueError` for a tuple that is not a pair. A filter value here is a plain value or a pair, so that error cannot be represented.
- TagPages.SortName: reads a parent name that is not text as `""`, where Python would raise on comparing it with text. The name sort is proved sorted and a permutation, but not proved stable.
- An exception raised while the taxonomy tree is drawn is not modelled: the tree is built from rows that always render.
- `pages/4_Tags.py`: after a tag button is clicked, the "Calls tagged" section runs a `contains` query, which is not modelled.
- The "Open in Call Search" navigation and the `call_detail_panel` tabs are not modelled, apart from the `_render_field` and transcript logic that `Cards` models.
- `create_session` and `delete_session` run as oracles, and their effects on the database are not modelled.
- The comma-joined `ct_summary` text of the Angle Bank is not modelled, and neither is the text of the filter hash `_fkey`. The counts and the hash comparison are modelled.
- `components/charts.py` is not modelled. The only fact used is that `objection_bar` needs the `frequency` and `obj_category` columns.
