# Website contact finder — a Dafny model

The system reads a spreadsheet of domains and fills each row with the
owner name, e-mail addresses, phone numbers and social-media links it
scrapes from that domain's website. For one domain, `get_website_data`:

- fetches the home page;
- extracts the header, footer, body and about-us sections;
- fetches 22 guessed policy pages and extracts each;
- reads `ads.txt`.

`process_domains` then writes the non-empty values into fixed columns of
the domain's row.

This project models both halves in Dafny:

- `python_str.dfy` (`PyStr`): the Python `str` operations the scraper
  uses. These are `strip()` with the `str.isspace` set, `splitlines()`,
  `split("=")[1]`, `startswith` and the `in` test.
- `email_regex.dfy` (`EmailRegex`): the email pattern and `re.findall`
  over it, modelled exactly. That is, the greedy parts are given back the
  way the backtracking matcher gives them back, and the scan resumes after
  each match.
- `owner_name.dfy` (`OwnerName`): the eleven owner-name patterns.
  - `re.search` with `re.IGNORECASE` finds the leftmost match.
  - Case folding covers ASCII and the four extra letters Python folds onto
    `i`, `s` and `k`.
  - Group 1 runs to the end of the line.
  - The patterns are tried in order and the first match stops the loop.
- `social_links.dfy` (`SocialLinks`): the ten-marker `if`/`elif` chain and
  the links map, where a later link replaces an earlier one.
- `ads_txt.dfy` (`AdsTxt`): the ads.txt line scan, which stops at the
  first `domainowner=` or `contact=` line.
- `scraper.dfy` (`Scraper`): the section extractor, `find_urls`, and
  `get_website_data`.
  - `get_website_data` is imperative code proved against the functional
    specification `WebsiteData`.
  - The web is a function from URL to fetch result.
  - A parsed page is its sections: visible text and link targets.
- `process_domains.dfy` (`Sheet`): `process_domains`.
  - The worksheet is a class holding a map from (row, column) to text.
  - Its `UpdateCell` either stores the value or raises.
  - The row loop, the column loop and the per-row `try` are modelled as
    Python runs them.

Points of the code's behaviour that are easy to misread, and that the
model follows as written:

- `dict.update` replaces all four keys, so the aggregate is the record of
  the last section read; fields are not merged across sections.
- Guessed pages are extracted whatever their status code.
- A guessed fetch that raises `RequestException` ends the whole crawl,
  because the `try` encloses everything; the pages after it are not read.
- `ads.txt` is fetched from `url + "/ads.txt"` after the loop has rebound
  `url` to the last guessed URL, so it is `<base>/sitemap/ads.txt`, not
  `<base>/ads.txt`.
- Reading `ads_data["owner_email"]` raises `KeyError` unless a `contact=`
  line ended the scan. As a result:
  - a non-empty ads.txt owner name never reaches the aggregate;
  - the `KeyError` escapes `get_website_data`;
  - the `KeyError` ends that sheet row with nothing written.
- A non-empty e-mail from ads.txt is added with `list.extend`, one entry
  per character.
- A failing `update_cell` is caught by the per-row `except Exception`.
  It ends that row only; later rows are still handled.

## Model

| member | source | states |
|---|---|---|
| PyStr.Strip | scraper.py:129 | the result is the input without its leading and trailing `isspace` characters, and it neither starts nor ends with one |
| PyStr.StripEmptyIff | scraper.py:129 | `strip()` gives `""` exactly when every character is whitespace |
| PyStr.StripOfStripped | scraper.py:228 | a string that neither starts nor ends with whitespace is its own strip |
| PyStr.StripIdempotent | scraper.py:228 | stripping twice equals stripping once |
| PyStr.StartsWith | main.py:94 | Python's `startswith`, as in the protocol test here and the `email` key test of main.py:108: the text begins with the prefix |
| PyStr.Contains | scraper.py:146-165 | Python's `sub in s`, as in the marker chain here and the ads.txt tests of scraper.py:227-230: the substring occurs at some index |
| PyStr.ContainsEq | scraper.py:227-228 | a line holding a marker that ends in `=` holds `=`, so `split("=")[1]` exists |
| PyStr.SecondField | scraper.py:228 | `split("=")[1]` is the text between the first `=` and the next `=` or the end, and holds no `=` |
| PyStr.SplitLines | scraper.py:226 | `splitlines()` gives no more lines than characters, and no line holds a line boundary |
| PyStr.SplitLinesBreaks | scraper.py:226 | the lines `splitlines()` returns, each followed by its boundary, join back to the text; none holds a boundary character, `\r\n` is one boundary, and a final boundary starts no empty line |
| PyStr.LinesOfUnique | scraper.py:226 | any split of the text into lines and boundaries with those properties is the one `splitlines()` returns |
| PyStr.SplitLinesFirst | scraper.py:226 | `splitlines()` gives the first line of such a split and then the lines of the text after its boundary |
| PyStr.SplitLinesIff | scraper.py:226 | a list is what `splitlines()` returns exactly when it is the list of lines of the text in that sense |
| PyStr.SplitLinesOneLine | scraper.py:226 | a non-empty text without line boundaries is one line |
| EmailRegex.MatchAt | scraper.py:133-134 | a match found at a position is a substring of the shape `local@domain.tld` |
| EmailRegex.MatchAtComplete | scraper.py:133-134 | when any substring starting at `p` has the email shape, the matcher finds a match at `p` at least as long (greedy) |
| EmailRegex.MatchCovers | scraper.py:133 | the greedy runs of the matcher cover the `@`, the last `.` and the character runs of any address that starts at `p` |
| EmailRegex.MatchIsEmail | scraper.py:133-134 | a match at `p` is a matching substring that starts at `p` |
| EmailRegex.SkipOne | scraper.py:134 | `re.findall` moves one position on where no substring matches |
| EmailRegex.NoMatchAt | scraper.py:133-134 | no match at `p` means no substring starting at `p` has the email shape |
| EmailRegex.FindAll | scraper.py:133-134 | `re.findall` with the email pattern over the whole text; every result has the email shape (through `FindAllFrom`), `FindAllEmptyIff` says when there is none, and `FindAllLeftmostLongest` with `FindAllNext` fixes each result in turn: the longest match at the leftmost position where one starts, after which the scan resumes at its end |
| EmailRegex.FindAllFrom | scraper.py:134 | every string `re.findall` returns has the email shape |
| EmailRegex.FindAllEmptyIff | scraper.py:134 | the scan returns nothing exactly when no substring of the text has the email shape |
| EmailRegex.FindAllSkips | scraper.py:134 | positions where no matching substring starts are skipped |
| EmailRegex.FindAllLeftmostLongest | scraper.py:134 | the first result starts at the leftmost position where a match starts, and is the longest match there |
| EmailRegex.FindAllNext | scraper.py:134 | from the leftmost position where a match starts, the scan gives the longest match there and then resumes at its end, so matches never overlap |
| EmailRegex.FindAllNoOverlap | scraper.py:134 | `ab@c.de` gives the single result `ab@c.de`, not also the overlapping `b@c.de` |
| EmailRegex.EmailHasNoCapitals | scraper.py:133 | nothing the pattern matches holds an upper-case ASCII letter |
| EmailRegex.FindAllHasNoCapitals | scraper.py:133-135 | the email scan does not ignore case: no result holds a capital |
| OwnerName.FoldEq | scraper.py:127 | when a text character matches a pattern character under `re.IGNORECASE`; `FoldEqLetter` spells it out |
| OwnerName.FoldEqLetter | scraper.py:127 | an ASCII letter of a pattern matches exactly its lower-case and upper-case forms, plus `İ`, `ı` for `i`, `ſ` for `s` and the Kelvin sign for `k`; any other character matches only itself |
| OwnerName.LabelAt | scraper.py:127 | the label matches the text at index `i`, character by character under `FoldEq`; `SearchFrom` finds the leftmost such index |
| OwnerName.CaseIsIgnored | scraper.py:127 | text that agrees with a label up to ASCII case matches it under `re.IGNORECASE` |
| OwnerName.SearchFrom | scraper.py:127 | `re.search` finds the leftmost position where the label matches, or no position at all |
| OwnerName.Group | scraper.py:127-129 | group 1 of the match holds no `\n` |
| OwnerName.GroupNoneIff | scraper.py:127-128 | the search finds no match exactly when the label matches at no position |
| OwnerName.FirstGroup | scraper.py:126-130 | the group the pattern loop stops at holds no `\n` |
| OwnerName.NameFrom | scraper.py:126-130 | the owner name of a list of patterns: the stripped group 1 of the first pattern that matches, `""` when none does; characterised by `FirstLabelWins`, `NoLabelNoName` and `NameIsTrimmedLine` |
| OwnerName.OwnerNameOf | scraper.py:112-130 | the owner name for the eleven patterns of `owner_name_patterns`, in their order |
| OwnerName.FirstMatch | scraper.py:126-130 | the loop over the patterns gives the owner name `NameFrom` specifies |
| OwnerName.NoLabelNoName | scraper.py:105-130 | when no pattern matches, the owner name is `""` |
| OwnerName.GroupSkipTo | scraper.py:126-128 | patterns whose search fails pass the loop on to the next pattern |
| OwnerName.FirstLabelWins | scraper.py:126-130 | the first pattern in list order that matches gives the name, as its stripped group 1; later patterns are not tried |
| OwnerName.StrippedLine | scraper.py:129 | stripping a group without `\n` gives a name without `\n` that is its own strip |
| OwnerName.NameIsTrimmedLine | scraper.py:127-129 | the owner name holds no `\n` and is its own strip |
| SocialLinks.ClassifyFrom | scraper.py:146-165 | the platform the `if`/`elif` chain files a link under; `ClassifyFirstMarker` states it is the first marker's |
| SocialLinks.Classify | scraper.py:146-165 | the chain with the ten markers of the source, in their order |
| SocialLinks.ClassifyFirstMarker | scraper.py:146-165 | a link is filed exactly when it holds some marker, and then under the platform of the first marker in test order |
| SocialLinks.ClassifyNames | scraper.py:146-165 | a link is only ever filed under one of the ten platform names |
| SocialLinks.LinksWith | scraper.py:143-167 | the links map after the links of a section in document order; `LinksLastWins` states that each entry is the last link filed under its platform |
| SocialLinks.Links | scraper.py:143-167 | `social_media_links` for the ten markers of the source |
| SocialLinks.FileLinks | scraper.py:143-167 | the link loop builds the links map that `LinksWith` specifies, filing each link under its first marker's platform |
| SocialLinks.LinksKeys | scraper.py:143-167 | every key of `social_media_links` is one of the ten platform names |
| SocialLinks.LinksLastWins | scraper.py:144-165 | for any marker table, and so for the ten markers: a platform has an entry exactly when some link is filed under it, and the entry is the last such link in document order |
| AdsTxt.LineValue | scraper.py:228 | the value taken from a marked line holds no `=` and is its own strip |
| AdsTxt.Scan | scraper.py:225-233 | the scan of the lines: the first line holding `domainowner=` or `contact=` decides, as `StopsAtFirstMarkedLine` and `NoMarkedLine` state |
| AdsTxt.ExtractAdsTxt | scraper.py:213-233 | the loop over the lines gives the result of the first-marked-line scan `Scan` |
| AdsTxt.StopsAtFirstMarkedLine | scraper.py:226-232 | the first marked line decides: `domainowner=` gives a name and no email key, `contact=` gives an email and an empty name; later lines are not read |
| AdsTxt.NoMarkedLine | scraper.py:225-233 | a file without a marked line gives an empty name and no `owner_email` key |
| AdsTxt.NameOrEmail | scraper.py:225-233 | when the `owner_email` key is present, the owner name is empty |
| Scraper.SectionRecord | scraper.py:104-169 | the four-key record of one section: the owner name of its text, the email scan of its text, one joined entry per phone match, and the links map of its links |
| Scraper.PhoneEntries | scraper.py:139-140 | group 1 followed by group 2 of each phone match, in match order |
| Scraper.ExtractSection | scraper.py:89-169 | the section extractor builds the record made of the owner-name search, the email scan, the phone entries and the links map |
| Scraper.SectionRecordShape | scraper.py:138-167 | one phone entry per phone match, equal to group 1 followed by group 2; links only under the ten platform names |
| Scraper.FindUrls | scraper.py:171-211 | the base URL followed by each of the 22 common paths; `FindUrlsShape` states its shape |
| Scraper.FindUrlsShape | scraper.py:183-211 | `find_urls(u)` gives 22 URLs in path order; each is `u` followed by its path; the last is `u + "/sitemap"` |
| Scraper.MainSections | scraper.py:61 | the header, footer, body and about-us lookups of the first page, in that order |
| Scraper.Present | scraper.py:61-62 | the sections of that list the page has, in order: `if section:` holds exactly for a found tag |
| Scraper.GuessedPages | scraper.py:66-69 | the pages the guessed-URL loop reads, in order, up to the first fetch that raises, and whether the loop completed |
| Scraper.RecordOfLast | scraper.py:61-69 | the aggregate after one `update` per section read: the empty record, or the record of the last section |
| Scraper.Chars | scraper.py:78-79 | what `list.extend` appends for a string: its characters, one entry each |
| Scraper.ApplyAds | scraper.py:71-82 | the ads.txt step: nothing happens unless ads.txt answers 200; then `KeyError` when no `contact=` line ended the scan, and otherwise a non-empty email is appended as its characters and a non-empty name replaces the owner name |
| Scraper.WebsiteData | scraper.py:26-87 | `get_website_data` as a function: the empty record for a failed or non-200 first fetch, otherwise the record of the last section read and then the ads step when the crawl completed |
| Scraper.GuessedStopsAtFailure | scraper.py:66-69 | once a guessed fetch raises, no later guessed page is read |
| Scraper.GuessedEndsAtFailure | scraper.py:66-69 | a guessed fetch that raises ends the crawl with the pages read before it |
| Scraper.GuessedStep | scraper.py:66-69 | a guessed fetch that returns adds its page, whatever its status code |
| Scraper.RecordOfLastAppend | scraper.py:63 | after an `update` with a section's full record, the aggregate is that record |
| Scraper.ExtractMainSections | scraper.py:61-63 | the loop over header, footer, body and about-us leaves the record of the last section present, or the empty record |
| Scraper.CrawlGuessed | scraper.py:66-69 | the guessed-URL loop leaves the record of the last page read; it completes exactly when no fetch raised, and then its loop variable is the last guessed URL |
| Scraper.ApplyAdsTxt | scraper.py:72-82 | the ads.txt statements have the effect `ApplyAds` describes |
| Scraper.GetWebsiteData | scraper.py:26-87 | `get_website_data` computes `WebsiteData`; a first fetch that raises or does not answer 200 gives the empty record |
| Scraper.GuessedAllReceived | scraper.py:66-69 | when every guessed fetch returns, the crawl completes with one page per URL, in order |
| Scraper.SitemapDecides | scraper.py:61-75 | when every guessed fetch returns, the result is the sitemap page's record with the ads.txt rules applied, for ads.txt fetched from `<base>/sitemap/ads.txt`; the first page's sections never reach the result |
| Scraper.GuessedFailureKeepsEarlierRecord | scraper.py:66-87 | when guessed fetch `k` raises, the result is the record of guessed page `k - 1`, or of the last first-page section when `k` is 0; ads.txt is not read |
| Scraper.AdsEffect | scraper.py:74-82 | ads.txt raises `KeyError` exactly when it answers 200 and no `contact=` line ends its scan; otherwise name, phones and links are unchanged, and the emails only gain one-character entries at the end |
| Scraper.AdsEmailAppended | scraper.py:76-79 | a `contact=` value is appended to the emails as its characters |
| Scraper.WebsiteDataKeys | scraper.py:41-87 | every key of the crawl's links map is one of the ten platform names |
| Sheet.Worksheet.constructor | main.py:60 | the worksheet starts with the given cells and service |
| Sheet.Worksheet.UpdateCell | main.py:116 | `update_cell` either stores the value at (row, column) and reports no exception, or raises and changes nothing |
| Sheet.NormalizeDomain | main.py:94-95 | the protocol rule for a domain; `NormalizeDomainPrepends` and `NormalizeDomainIdempotent` state it |
| Sheet.ScrapedValue | main.py:107-111 | the value the column loop computes for one entry; a non-empty value is one of the emails, one of the phone numbers or one of the links; `EmailSlot`, `PhoneSlot` and `LinkSlot` fix it per column |
| Sheet.PlanFrom | main.py:105-116 | the `update_cell` calls the entries from `j` on ask for, in table order; `PlanFromEntries` and `EntryPlanned` state that exactly the non-empty entries are planned |
| Sheet.Plan | main.py:69-116 | those calls for the fourteen entries of `column_indices` |
| Sheet.ApplyWrites | main.py:99-122 | the planned writes of one row carried out in order until the first that raises, which ends the row |
| Sheet.NormalizeDomainPrepends | main.py:94-95 | the domain afterwards has a protocol; it is unchanged exactly when it already started with `http://` or `https://`, and otherwise `https://` is prepended |
| Sheet.NormalizeDomainIdempotent | main.py:94-95 | normalising twice equals normalising once |
| Sheet.WriteFindings | main.py:105-116 | the column loop performs the planned writes in table order, up to the first `update_cell` that raises |
| Sheet.WriteEntry | main.py:106-116 | one pass of the column loop raises exactly when its value is non-empty and `update_cell` refuses it; a raise leaves the cells as they were and ends the planned writes, otherwise the remaining plan carries on from the new cells |
| Sheet.NoWrite | main.py:114 | an entry whose value is empty asks for no write |
| Sheet.AcceptedWrite | main.py:114-116 | an accepted write stores its value and the plan goes on with the next entry |
| Sheet.RefusedWrite | main.py:116-122 | a refused write ends the row with the cells as they are |
| Sheet.RowResult | main.py:90-122 | what handling one row does: a row of at most two cells is skipped, a `KeyError` writes nothing, otherwise the findings are written |
| Sheet.ProcessRows | main.py:88-122 | the cells after the data rows are handled in order, data row `k` as sheet row `k + 2` |
| Sheet.DataRows | main.py:88 | `data[1:]`, the rows after the header |
| Sheet.ProcessRow | main.py:90-122 | one row: a row of at most two cells is skipped; otherwise the normalised domain is crawled and its findings written; an exception ends the row |
| Sheet.ProcessDomains | main.py:60-122 | every row after the header is handled in order as sheet row index + 2 |
| Sheet.ProcessRowsStep | main.py:88 | handling one more data row applies that row's handling as sheet row `k + 2` |
| Sheet.NotEmailKey | main.py:108 | a key that does not start with `e` is not an email key |
| Sheet.EmailSlot | main.py:108-109 | slot `email k+1` has 0-based index `7 + k` and takes `owner_emails[k]` when the list has more than `k` entries, else `""` |
| Sheet.PhoneSlot | main.py:110-111 | `phone number` has 0-based index 22 (sheet column 23) and takes the first phone number when there is one, else `""` |
| Sheet.LinkSlot | main.py:107 | every column from `reddit` to `Twitch` takes `social_media_links.get(key, "")` for its own key: the link filed under exactly that key, or `""` |
| Sheet.UnmatchedKeyIsEmpty | main.py:107 | a link key that is not a platform name gives `""` |
| Sheet.PlanFromEntries | main.py:105-114 | each planned write comes from one table entry, at its column + 1, with its scraped value, which is non-empty |
| Sheet.EntryPlanned | main.py:105-116 | every entry whose value is non-empty is planned, at its column + 1 with that value |
| Sheet.ColumnIndicesDistinct | main.py:69-85 | the fourteen entries of `column_indices` name fourteen different columns |
| Sheet.ColumnNotPlanned | main.py:105-116 | a column that no entry names gets no planned write |
| Sheet.PlanFromDistinct | main.py:105-116 | over a table of distinct columns, no two planned writes share a column |
| Sheet.EntryNotPlanned | main.py:113-116 | over a table of distinct columns, an entry whose value is empty has no write in its column |
| Sheet.TableWritten | main.py:105-116 | when the service accepts the row, each entry's cell ends holding its value when non-empty and stays as it was when empty |
| Sheet.FindingsWritten | main.py:69-116 | the same for one domain's findings and the fourteen entries of `column_indices` |
| Sheet.RowWritten | main.py:88-122 | for the whole run: when a data row's crawl returns and the service accepts its sheet row, each entry's cell of that row ends holding its non-empty value, or stays as it was |
| Sheet.EntryColumnWritable | main.py:69-107 | `Owner first name`, `Discord`, `Pinterest`, `Linkedin` and `Twitch` never give a value; every other entry's column + 1 is a writable column |
| Sheet.PlanColumns | main.py:105-116 | every write a domain's findings ask for is non-empty and goes to one of the nine writable columns |
| Sheet.ApplyWritesFrame | main.py:114-116 | writes change only the cells they name, and each changed cell holds the value of one of them |
| Sheet.ApplyWritesStopsAtRefusal | main.py:99-122 | when the `n`-th write raises, the writes before it stay and none after it happens |
| Sheet.ApplyWritesLand | main.py:114-116 | when every write goes to a distinct column and is accepted, each value lands in its cell |
| Sheet.FindingsFrame | main.py:105-116 | writing one domain's findings changes only that row's writable columns, and only to non-empty values |
| Sheet.RowResultFrame | main.py:90-122 | handling a row changes only that row's writable columns, and only to non-empty values |
| Sheet.ProcessRowsFrame | main.py:88-122 | the run changes only data rows (never the header row), only in writable columns, and only to non-empty values |
| Sheet.RowIsolation | main.py:88-122 | each cell of sheet row `k + 2` ends as row `k`'s handling alone leaves it, so an exception in one row neither stops nor changes the others |
| Sheet.RowFromSameCell | main.py:90-122 | what a row does to one of its cells depends only on that cell |
| Sheet.ApplyWritesSameCell | main.py:114-116 | writes treat equal starting cells alike |
| Sheet.PlanOfEmpty | main.py:105-116 | the empty record asks for no write |
| Sheet.EmptyPlanFrom | main.py:105-116 | no table entry gives the empty record a value |
| Sheet.QuietRow | main.py:90-122 | a short row, a domain whose first fetch raises, and a crawl that raises `KeyError` all leave that row's cells as they were |
| Sheet.PhoneOnlyPlan | main.py:105-116 | findings holding only a phone number ask for exactly one write, to column 23 |
| Sheet.PhoneOnlyPrefix | main.py:105-116 | the entries before the phone entry ask a phone-only record for nothing |

## Left out

- HTTP fetching (`requests.get`, the User-Agent header) is not modelled.
  - It becomes a fixed function from URL to fetch result.
  - A fetch either raises `RequestException` or gives a status code, a parsed document and a text body.
  - The same URL always gives the same result.
- BeautifulSoup parsing is not modelled.
  - A section is its visible text and the `href` of each of its links.
  - A page is its optional header, footer, body and about-us sections plus the whole document.
  - `if section:` is modelled as "the page has that element", since a found tag is always true.
- The phone pattern's regular-expression engine is a parameter, `PhoneScan`.
  - It gives the two capture groups of each match.
  - The model fixes only what the code does with those groups.
- Logging and the colour formatter, `time.sleep(5)`, sheet authentication, `get_google_sheet_data`, `load_dotenv` and the script code at module level: side effects and foreign calls with no logic to model.
- Exceptions other than `RequestException`, the `KeyError` on `owner_email` and a failing `update_cell` are not modelled, for example a parser error.
- Sheet.Worksheet.UpdateCell: whether the service accepts a write depends only on the cell. Quota and other time-dependent refusals are outside the model.
- Sheet.ScrapedValue: a negative email slot gives `""` rather than Python's index from the end. Only the columns 7, 8 and 9 start with `email`, so no slot is negative.
