# Sports newsletter core, modelled in Dafny

This project models the logic of a sports newsletter service. The service has four small pieces:

- **Query-to-URL resolver** (`generate_urls_from_query`). A static table of ten sport keywords lists three source URLs per keyword. A query selects every keyword found in its lower-cased text. The result is those keywords' URLs in table order, or a fixed two-URL default when no keyword is found.
- **Subscriber store** (`FirebaseManager`). Two document collections, `users` and `newsletter_preferences`, hold profiles and preference documents. The manager:
  - reads one user's joined record, applying defaults for missing preference fields;
  - lists active subscribers;
  - lists the users due for a newsletter under a daily, weekly or monthly rule counted in whole days;
  - merges preference updates;
  - records the time of the last newsletter sent.
- **Scraper** (`scraper.py`):
  - validates URLs (non-empty scheme and network location);
  - fetches a batch of URLs in order, skipping invalid and failed ones and sleeping after each success;
  - keeps a process-wide document buffer, rebuilds the search index over the whole buffer, and summarises each new batch by the first 200 characters of every non-empty text.
- **Sign-up page** (`page.tsx`). The submit handler lower-cases the four form fields. It builds the record to post only when the e-mail matches `^[^\s@]+@[^\s@]+\.[^\s@]+$`.

Layout:

- `common.dfy` (module `Common`): an option type, ASCII lower-casing, `IndexOf`, an in-order `Filter` with its membership lemma, and `Join` (Python's `str.join`) with its length lemma.
- `gen_urls.dfy` (module `GenUrls`): the keyword table and the resolver. `GenerateUrlsFromQuery` is the source's loop, proved equal to the specification function `Resolve`, and the lemmas state the resolver's properties.
- `user_information.dfy` (module `UserInformation`): the stored values, the `UserPreference` record, the scheduling rule, and the class `FirebaseManager`. The class holds the two collections as `map` fields plus the order in which a query streams the preference documents. Its query methods are loops proved against specification functions. Its update methods state the whole new state.
- `scraper.dfy` (module `Scraper`): `ValidateUrl`; `ScrapeWithRateLimit`, a loop proved against `Scraped` and a trace of fetch and sleep events; `Summarize`; and the class `ContentIndex`, which holds the buffer and the index.
- `signup_page.dfy` (module `SignupPage`): `ValidateEmail`, proved equal to the regular expression's language, plus the field normalisation and the submit guard.

Behaviour of the code worth noting:

- **The scraper never skips a document with empty text.** It appends one document per successful fetch, whatever the text.
- **There is no "no content scraped" message.** An empty batch summarises to the empty string, and the index is still rebuilt.
- **The loop sleeps only after a successful fetch.** It does not sleep after every attempt.
- **The HTTP request sets no timeout and no User-Agent header.**
- **A missing send time makes the due-query return [].** `get_users_due_for_newsletter` reads `last_newsletter_sent` with the snapshot's `get`. That `get` raises KeyError when the field is absent, so one streamed preference document without that field sends the whole query to its `except` branch. Only a stored falsy value, such as null, reads as "never sent" (`UserInformation.MissingSendTimeEmptiesQuery`).

## Model

| member | source | states |
|---|---|---|
| GenUrls.ContainsIffOccurs | src/gen_urls.py:65 | `keyword in query_lower` holds exactly when the keyword occurs as a contiguous substring of the lower-cased query |
| GenUrls.Contains | src/gen_urls.py:65 | a keyword is found only when it is no longer than the query, and the empty keyword is always found |
| GenUrls.Resolve | src/gen_urls.py:62-72 | the resolver never returns an empty list |
| GenUrls.GenerateUrlsFromQuery | src/gen_urls.py:62-72 | the loop that extends the result with every matching entry's URLs, then falls back, returns exactly `Resolve(query)` |
| GenUrls.MatchedIndicesSpec | src/gen_urls.py:64-66 | an entry is selected exactly when its keyword occurs in the lower-cased query, and selected entries are taken in increasing table order |
| GenUrls.MatchedUrlsLayout | src/gen_urls.py:63-66 | for entries of three URLs each, the concatenation has length 3 per selected entry, and position 3j+m is URL m of the j-th selected entry |
| GenUrls.KeywordTableShape | src/gen_urls.py:7-58 | every table entry lists exactly three URLs, and every keyword is already lower-case |
| GenUrls.ResolveLength | src/gen_urls.py:8-70 | the result has length 3 × (number of matched keywords) when that number is positive, and 2 otherwise |
| GenUrls.ResolveFallback | src/gen_urls.py:69-70 | the result is the fixed default list exactly when no keyword matches |
| GenUrls.ResolveConcatenation | src/gen_urls.py:63-66 | with at least one match, the result is the in-order concatenation, without de-duplication, of the matched keywords' URL lists |
| GenUrls.MatchedUrlsFromTable | src/gen_urls.py:63-66 | every URL gathered by the loop is listed in the table |
| GenUrls.ResolveFromTable | src/gen_urls.py:7-70 | every URL the resolver returns, fallback included, is listed in the table |
| GenUrls.FallbackIsSportsBetting | src/gen_urls.py:23-27 | the default URLs are the first two URLs of the 'sports betting' entry |
| GenUrls.CaseInsensitiveMatch | src/gen_urls.py:62-65 | a lower-case keyword matches the lower-cased query exactly when it occurs in the query ignoring ASCII case |
| GenUrls.ResolveIgnoresCase | src/gen_urls.py:62 | two queries that agree after lower-casing resolve to the same list |
| GenUrls.NoMatchFallsBack | src/gen_urls.py:69-70 | a query containing no keyword resolves to the default list |
| GenUrls.UnlistedSportFallsBack | src/gen_urls.py:69-70 | a query reading "chess" in any letter case, a sport the table does not list, resolves to the default list |
| GenUrls.GolfSelectsOnlyGolf | src/gen_urls.py:63-66 | the lower-cased query "golf" selects the 'golf' entry and no other |
| GenUrls.SingleMatch | src/gen_urls.py:63-70 | a query that selects exactly one entry resolves to exactly that entry's URL list |
| GenUrls.GolfQuery | src/gen_urls.py:62-66 | "golf" in any letter case, "GOLF" included, resolves to exactly the three URLs of the 'golf' entry |
| GenUrls.SportsBettingNeedsSpace | src/gen_urls.py:23 | the two-word keyword needs its space: no query without a space, "SportsBetting" for one, selects the 'sports betting' entry |
| Common.Lower | src/gen_urls.py:62 | lower-casing keeps the length and maps each character to its ASCII lower-case form, position by position |
| Common.Join | src/scraper.py:46 | joining no pieces gives "" and joining one piece gives that piece |
| UserInformation.IsDueForNewsletter | src/extract_user_information.py:150-166 | with no (or a falsy) send time the user is due, whatever the frequency; with a send time, an unknown frequency is never due |
| UserInformation.WholeDaysAtLeast | src/extract_user_information.py:158-165 | `timedelta.days >= n` (floor of elapsed seconds over a day) holds exactly when at least n × 86400 seconds elapsed |
| UserInformation.DueIffThresholdElapsed | src/extract_user_information.py:157-166 | once sent, 'daily', 'weekly' and 'monthly' are due exactly when 1, 7 or 30 whole days have elapsed, boundary included; any other frequency never is |
| UserInformation.NegativeElapsedNeverDue | src/extract_user_information.py:157-166 | a send time later than now is never due |
| UserInformation.DueIsMonotone | src/extract_user_information.py:154-165 | a user due at some time is due at every later time |
| UserInformation.JustSentNotDue | src/extract_user_information.py:157-166 | less than one day after a send, no frequency is due |
| UserInformation.WeeklyBoundary | src/extract_user_information.py:162-163 | weekly: not due after 6 days or 7 days minus a second, due after exactly 7 days |
| UserInformation.PreferencesOf | src/extract_user_information.py:47-63 | None exactly when the user document is missing; otherwise a record of that user carrying the profile's `email` and `name` (Null when absent) and, field by field, the preference document's stored `sport_preferences`, `notification_frequency`, `last_newsletter_sent` and `is_active`, or the defaults [], 'weekly', Null and True for a field that is absent; a missing preference document gives all four defaults |
| UserInformation.Record | src/extract_user_information.py:55-63 | the `UserPreference` built from a profile and a preference document: each field is the stored value when present and its default when absent |
| UserInformation.StoredFieldsCarried | tests/test_firebase_integration.py:17-44 | a profile with e-mail 'test@example.com' and a preference document with sport preferences ['basketball'] read back as a record holding exactly those values, with the defaults for the fields the documents lack |
| UserInformation.RecordDefaults | src/extract_user_information.py:59-62 | the defaults applied to an empty preference document |
| UserInformation.FirebaseManager.constructor | src/extract_user_information.py:38-40 | a manager over the given collections, with a stream order listing each preference document once |
| UserInformation.FirebaseManager.GetUserPreferences | src/extract_user_information.py:42-66 | returns `PreferencesOf` the current collections, or None when a store call raises |
| UserInformation.FirebaseManager.GetActiveSubscribers | src/extract_user_information.py:68-98 | the loop returns exactly `ActiveSubscribers` over the stream order, or [] when a store call raises |
| UserInformation.ActiveSubscribersExactly | src/extract_user_information.py:74-93 | the subscribers are, in stream order, exactly the preference documents with is_active == True whose user exists, each with is_active forced to True and the profile's e-mail |
| UserInformation.FilterKeepsDistinct | src/extract_user_information.py:77-93 | filtering a stream without repeated ids yields no repeated ids |
| UserInformation.ActiveSubscribersDistinct | src/extract_user_information.py:77-93 | no subscriber is listed twice |
| UserInformation.FirebaseManager.GetUsersDueForNewsletter | src/extract_user_information.py:128-148 | the loop returns exactly `DueUsers` over the stream order: [] when the query's own store call raises or reading a streamed send time raises; a user whose nested profile lookup raises is skipped and the loop goes on |
| UserInformation.LookupFailuresOnlyDrop | src/extract_user_information.py:141-143 | a profile lookup that raises (caught inside `get_user_preferences`, lines 64-66) drops exactly that user: the due ids are those of a run without failures, less the failed ones, in the same order |
| UserInformation.DueUsersExactly | src/extract_user_information.py:134-148 | with no raising document, the result is, in stream order, exactly the active documents of the requested frequency that are due and whose user exists, each equal to what `get_user_preferences` returns; otherwise [] |
| UserInformation.MissingSendTimeEmptiesQuery | src/extract_user_information.py:139 | one candidate document without a `last_newsletter_sent` field empties the whole result |
| UserInformation.MarkedUserNotDue | src/extract_user_information.py:115-166 | after its send time is recorded, a user is not returned by the due query for the next day |
| UserInformation.Merge | src/extract_user_information.py:106-109 | a merge keeps every existing field, overwrites exactly the supplied fields, and adds no others |
| UserInformation.FirebaseManager.UpdateUserPreferences | src/extract_user_information.py:100-113 | on success, only this user's preference document changes, to its merge with the update (created if missing); the profiles never change; on a store failure it returns false and changes nothing |
| UserInformation.FirebaseManager.UpdateLastSentTimestamp | src/extract_user_information.py:115-126 | succeeds exactly when the preference document exists and the store answers, then changes only its `last_newsletter_sent` field, to now; otherwise false and nothing changes |
| Scraper.ValidUrlShape | src/scraper.py:62-66 | a valid URL has the form scheme "://" followed by a non-empty authority; without square brackets, that form is also sufficient |
| Scraper.ValidateUrl | src/scraper.py:52-66 | a URL is valid only when it parses without raising, contains a ':' and starts with an ASCII letter; `ValidUrlShape` gives the exact shape |
| Scraper.HttpsUrlValid | src/scraper.py:62-64 | an "https://" URL with a host and no brackets is valid |
| Scraper.NoColonInvalid | src/scraper.py:62-64 | a string without ':' has no scheme and is invalid |
| Scraper.ExampleUrlValid | tests/test_scraper.py:39 | "https://example.com" is valid |
| Scraper.NotAUrlInvalid | tests/test_scraper.py:40 | "not_a_url" is invalid |
| Scraper.FirstTestUrlValid | tests/test_scraper.py:44 | "https://example.com/1" is valid |
| Scraper.SecondTestUrlValid | tests/test_scraper.py:44 | "https://example.com/2" is valid |
| Scraper.ScrapeWithRateLimit | src/scraper.py:68-103 | the loop returns exactly `Scraped(urls, ValidateUrl, fetch)`, and its fetches and sleeps are exactly `ScrapeTrace` |
| Scraper.ScrapedIsFilter | src/scraper.py:79-103 | the documents carry, in input order, exactly the URLs that are valid and fetched successfully, each with the text fetched for it, empty text included |
| Scraper.ScrapedUrls | src/scraper.py:79-103 | at most one document per input URL, and a URL is among the documents exactly when it is valid and its fetch succeeds |
| Scraper.ScrapedAppend | src/scraper.py:81-101 | a failure on one URL only skips it: scraping a + b yields the documents of a followed by those of b |
| Scraper.TraceDiscipline | src/scraper.py:81-98 | only valid URLs are fetched, and every sleep of `delay` directly follows a successful fetch |
| Scraper.SleepPerDocument | src/scraper.py:96-101 | the total sleep is `delay` per returned document (none for a negative delay, which raises inside the loop after the append) |
| Scraper.RejectedUrlSkipped | src/scraper.py:81-98 | in a batch of three URLs whose middle one is rejected, the other two documents come back in order, and two successes at delay 1 sleep 2 in all |
| Scraper.MalformedUrlSkipped | tests/test_scraper.py:43-53 | when both fetches succeed, the batch ["https://example.com/1", "not_a_url", "https://example.com/2"] yields two documents in order, and the rate-limit test's two URLs at delay 1 sleep 2 in all. The test itself lacks `@responses.activate`, so its mocks are inactive and it does not arrange those successful fetches; the lemma states what the loop does when they happen |
| Scraper.Prefix200 | src/scraper.py:44 | `text[:200]` is a prefix of the text of length min(200, len(text)) |
| Scraper.Summarize | src/scraper.py:40-46 | the summary loop returns `Join(" ", SummaryParts(docs))` |
| Scraper.SummaryPartsSpec | src/scraper.py:41-44 | one summary part per document with non-empty text, in order, each the non-empty 200-character prefix of that text |
| Scraper.SummaryBounds | src/scraper.py:40-46 | an empty batch summarises to "", and a summary has at most 201 characters per document |
| Scraper.JoinBound | src/scraper.py:44-46 | pieces of at most 200 characters joined by single spaces take at most 201 characters per piece |
| Scraper.ContentIndex.constructor | src/scraper.py:16-17 | the buffer starts empty and there is no index |
| Scraper.ContentIndex.ScrapeAndAddDynamic | src/scraper.py:19-50 | the buffer only grows; a loader error leaves buffer and index unchanged and returns "Error during scraping: " and the message; otherwise the buffer is the old buffer followed by the new documents; an index error then leaves the index unchanged and returns the error string; on success the index is rebuilt over the whole buffer and the summary of the new documents is returned |
| SignupPage.ValidateEmailIsRegex | reactappfolder/react-signuppage/src/app/page.tsx:47-50 | the check accepts exactly the strings `^[^\s@]+@[^\s@]+\.[^\s@]+$` matches: three non-empty runs without whitespace or '@', separated by '@' and '.' |
| SignupPage.ValidateEmail | reactappfolder/react-signuppage/src/app/page.tsx:47-50 | an accepted address has at least five characters, an '@', and does not start with '@'; `ValidateEmailIsRegex` gives the exact language |
| SignupPage.ValidEmailShape | reactappfolder/react-signuppage/src/app/page.tsx:48 | an accepted address has no whitespace, exactly one '@', and a non-empty part before it |
| SignupPage.ValidateEmailIgnoresCase | reactappfolder/react-signuppage/src/app/page.tsx:12-16 | lower-casing an address never changes the verdict |
| SignupPage.AcceptsAddress | reactappfolder/react-signuppage/src/app/page.tsx:48 | any local@domain.tld made of non-empty runs of visible ASCII other than '@' is accepted |
| SignupPage.AcceptsPlainAddress | reactappfolder/react-signuppage/src/app/page.tsx:48 | "a@b.c" is accepted |
| SignupPage.RejectsEmpty | reactappfolder/react-signuppage/src/app/page.tsx:48 | "" is rejected |
| SignupPage.RejectsDomainWithoutDot | reactappfolder/react-signuppage/src/app/page.tsx:48 | "a@b" is rejected |
| SignupPage.RejectsDotNextToAt | reactappfolder/react-signuppage/src/app/page.tsx:48 | "a@.c" is rejected |
| SignupPage.RejectsTrailingDot | reactappfolder/react-signuppage/src/app/page.tsx:48 | "a@b." is rejected |
| SignupPage.RejectsEmptyLocalPart | reactappfolder/react-signuppage/src/app/page.tsx:48 | "@b.c" is rejected |
| SignupPage.RejectsSecondAt | reactappfolder/react-signuppage/src/app/page.tsx:48 | "a@@b.c" is rejected |
| SignupPage.RejectsSpace | reactappfolder/react-signuppage/src/app/page.tsx:48 | "a @b.c" is rejected |
| SignupPage.Field | reactappfolder/react-signuppage/src/app/page.tsx:10-13 | a present field reads as its lower-cased value, an absent one as "", and the result is always lower-case |
| SignupPage.HandleSubmit | reactappfolder/react-signuppage/src/app/page.tsx:5-22 | a record is built for posting exactly when the lower-cased e-mail passes the check, and it holds the four normalised fields |
| SignupPage.PostedRecord | reactappfolder/react-signuppage/src/app/page.tsx:10-22 | a posted record is all lower-case, and its e-mail matches the regular expression; a form without an e-mail field is never posted |
| SignupPage.SubmitIgnoresEmailCase | reactappfolder/react-signuppage/src/app/page.tsx:12-19 | whether a form is posted depends only on the typed address, not on its letter case |

## Left out

- src/newsletter.py is not part of this model. It holds the newsletter templating, article download, e-mail dispatch and JSON-file persistence, all of which are library wrappers or file I/O.
- Firebase initialisation, credential loading and the Firestore client (src/extract_user_information.py:23-40). These are replaced by the two collections held as maps. A store call that raises is a `storeFails` parameter; in the due query, the profile lookups that raise are the ids in a `lookupFails` parameter. The order in which a query streams documents is a field of the class. Streaming a newly created preference document last is a modelling choice: without `order_by`, Firestore streams documents in id order, which the model does not compute.
- `async`/`await`: the manager's methods are ordinary sequential methods.
- The demo under `__main__` in the scraper and store files.
- Printing and logging.
- UserInformation.IsDueForNewsletter: `datetime.now()` and `datetime` values are whole seconds on one integer clock passed in as `now`. Time zones and sub-second parts are not modelled.
- UserInformation.FirebaseManager.UpdateLastSentTimestamp: the write sets the stored value to `Timestamp(now)` for the `now` passed in. Its failure on a missing document is the store's `update` raising NotFound.
- UserInformation.PreferencesOf: the profile's `email` and `name` are carried as stored values, and an absent one is Null.
- UserInformation.LastSentOf: a stored `Timestamp` reads as a usable send time. With the real Firestore client this is not so: it returns timezone-aware (UTC) datetimes, while `datetime.now()` is naive, so `now - last_sent` (src/extract_user_information.py:157-158) raises TypeError for every stored timestamp, including the one `update_last_sent_timestamp` writes. The due query would then return [] through its `except` branch, as it does for a missing field. The model treats the timestamp as the intended integer clock reading instead.
- The equality filters of the store's queries compare whole stored values (`FieldEquals`). Firestore's cross-type ordering rules are not modelled.
- Scraper.ValidateUrl models only the parts of `urlparse` that decide the result:
  - the scheme split before the first ':' (letters, digits, '+', '-', '.');
  - the authority after a leading "//" up to '/', '?' or '#';
  - the ValueError on an unbalanced '[' or ']'.
  
  `urlsplit`'s clean-up of its input is not modelled: it strips leading C0 control characters and spaces, and it deletes every tab, CR and LF anywhere in the URL. So `validate_url("ht\ttps://x")` is True in Python, but `ValidateUrl` rejects that string. The NFKC check on the netloc and IPv6 bracket validation beyond balance are not modelled either.
- Scraper.ScrapeWithRateLimit: the HTTP GET, the status check, BeautifulSoup's tag removal and text extraction are one oracle `fetch`, which gives the extracted text or a failure. `time.sleep` is an event in a ghost trace, and the float `delay` is an integer.
- Scraper.ContentIndex.ScrapeAndAddDynamic: the web-page loader and the vector index builder are oracles. The index is modelled only as the list of documents it was built from. A loaded document whose text is missing (None) is not modelled: texts are strings.
- The fetch loop's properties are proved for any URL filter. The loop uses `ValidateUrl`.
- SignupPage.HandleSubmit stops at the record it would post. The POST request, the alerts, the form reset and the page markup are not modelled.
- `toLowerCase` and Python's `str.lower` are modelled on ASCII letters only. Other characters are left unchanged, so Unicode case mapping is not modelled.
- SignupPage.ValidateEmail treats characters as Unicode scalar values. For `[^\s@]` and `\s` this agrees with JavaScript's UTF-16 code units, because no surrogate is whitespace or '@'.
