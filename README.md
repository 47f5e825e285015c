# Voter analytics and mini-insta accessors in Dafny

This project models the logic of two Django apps.

The voter-analytics app:

- **Bulk loader.** `load_data` reads a comma-separated file of voters, row by row. It skips the header line. Each later line is stripped, split on commas, and turned into a `Voter`. A row that cannot be turned into one is skipped, and loading goes on.
- **List view.** `VotersListView.get_queryset` narrows the voter table by the request's `party`, `min_year`, `max_year`, `min_score` and `elections` parameters. It then orders the result by last name and first name.
- **Menus and label.** `get_context_data` and `search_view` supply the birth-year and score menus. `Voter.__str__` is the voter's one-line label.

The social app (`mini_insta`):

- a profile's posts, newest first;
- a post's photos;
- the url a photo is shown from;
- a profile's label.

## How the model is organised

Each module stands for one part of the source.

- `Wrappers`: `Option` and `Result`.
- `Seqs`: the semantics of a query set, over a sequence of records.
  - `Filter` is `.filter()`. It keeps the records a predicate accepts, in table order.
  - `SortBy` is `.order_by()`: an insertion sort under a total preorder.
  - `Present` keeps the values of an `Option` sequence.
- `Text`: the Python string built-ins the loader and the view rely on. These are `str.strip()` (Python's full whitespace set), `str.split(',')`, `str.upper()` for the comparison with `'Y'`, `int()` on a string (surrounding whitespace, a sign, `_` between digits; `int()` skips a narrower set of whitespace than `strip()`, without the four separator controls U+001C to U+001F), `str()` of an integer, and code-point order on strings.
- `Dates`: `datetime.strptime(s, '%Y-%m-%d').date()` and `str()` of a date. The number fields take the widths the format accepts: one or two digits for the month and the day, and a day may have a leading space. The month and day must exist in the Gregorian calendar.
- `Voters`: the `Voter` record, its label, and the pure part of the loader. That part maps one line to an optional `Voter`.
- `VoterLoader`: the loading loop. It is a method over a `VoterTable` object whose `rows` field stands for the database table. `Save` is `voter.save()`.
- `VoterViews`: the list view.
  - `ApplyFilters` reassigns a local sequence step by step, as `qs = qs.filter(...)` does.
  - It is proved equal to `Select`: a filter by the conjunctive predicate `Matches`, over the criteria `ReadCriteria` reads from the request.
  - `GetQueryset` then sorts by name.
  - `GetContextData` adds the menus to the framework's context map.
- `MiniInsta`: the social app's accessors, as pure functions over sequences of records.

How Django's behaviour is modelled:

- **Absent or empty parameters.** A request parameter is an `Option<string>`. An absent or empty value imposes no filter, as Python's `if party:` does.
- **Integer bounds.** A year or score bound that is given but is not an integer makes the integer lookup raise `ValueError`. This is modelled as `Failure(NotAnInteger(name, text))`. The bounds are read in the source's order: `min_year`, then `max_year`, then `min_score`.
- **Election names.** An election list that names none of the five elections leaves the `Q()` object empty. An empty `Q()` matches every voter.
- **Sort order.** The order of voters with equal names is not specified, so the ordering contract is "sorted, and a permutation of the selection".

## Model

| member | source | states |
|---|---|---|
| Voters.Voter.ToString | voter_analytics/models.py:40-42 | The label starts with the first name, ends with the zip code, and its length is the five parts plus the eight characters of punctuation and spaces. |
| Voters.ToStringLayout | voter_analytics/models.py:40-42 | The label is the first name, a space, the last name, " (", the party, ", ", the printed birth date, "), " and the zip code, each piece at the offset the lengths before it give. |
| Voters.ToStringShowsBirthDate | voter_analytics/models.py:42 | The date inside the label, read back with the loader's date format, gives back the voter's birth date. |
| Voters.FlagOf | voter_analytics/models.py:68-72 | An election flag is true exactly for the field "Y" or "y"; any other text gives false. |
| Voters.ApartmentOf | voter_analytics/models.py:62 | An empty apartment field becomes None; a non-empty one is kept verbatim. |
| Voters.VoterOfFields | voter_analytics/models.py:57-75 | A row gives a voter exactly when it has at least 17 fields, both dates parse, and the score field is an integer. Fields 1-16 then map, in order, to last name through score; field 0 is ignored. |
| Voters.ExtraFieldsIgnored | voter_analytics/models.py:57-75 | Fields after the 17th never change the voter a row gives. |
| Voters.ParseRowExtraColumns | voter_analytics/models.py:53-75 | For a stripped line with at least 17 fields, appending a comma and any text leaves the parsed voter unchanged, success or failure alike. |
| Voters.StripExtraColumns | voter_analytics/models.py:53 | `strip()` of a stripped line followed by `,extra` trims only the trailing whitespace of `extra`. |
| Voters.Fields | voter_analytics/models.py:53 | `line.strip().split(',')` gives at least one field, no field contains a comma, and joining the fields with commas gives back the stripped line. |
| Voters.ParseRow | voter_analytics/models.py:53-75 | A line gives a voter exactly when its stripped, comma-split fields number at least 17 and both dates and the score parse; the voter's names, zip code, party, dates and score are read from their columns. Otherwise the loader skips the line. |
| Voters.ParseJoinedRow | voter_analytics/models.py:53 | Strip and split on commas give back the fields of a comma-free, stripped row. |
| Voters.ParseRowOfRow | voter_analytics/models.py:53-75 | Writing a voter as a row in the file's column order, and reading that row back, gives the same voter. |
| Dates.ParseDate | voter_analytics/models.py:64-65 | Every date the parser accepts is a real calendar date, with a year from 1 to 9999. |
| Dates.DateToString | voter_analytics/models.py:42 | `str(date)` is digits and dashes. For a valid date it is ten characters: four, two and two ASCII digits, dashes at positions 4 and 7, and the three digit runs valued the year, month and day (so year 199 prints as `0199`). |
| Dates.ParseDateToString | voter_analytics/models.py:64-65 | Every calendar date, printed as Python prints a date, parses back to itself. |
| Dates.ParseDateShortFields | voter_analytics/models.py:64-65 | "1990-7-4" parses, since a one-digit month and day are accepted. |
| Dates.ParseDateSpacedDay | voter_analytics/models.py:64-65 | "2023-01- 5" parses, since the day may have a leading space. |
| Dates.ParseDateNotLeap | voter_analytics/models.py:64-65 | "2023-02-29" is refused, so that row is skipped. |
| Dates.ParseDateYearZero | voter_analytics/models.py:64-65 | "0000-01-01" is refused, because year 0 does not exist. |
| Text.ParseInt | voter_analytics/models.py:73 | `int()` accepts text exactly when, once its own whitespace (ASCII tab to carriage return, space, and non-ASCII whitespace) is stripped, it is a digit run, with an optional sign first. A digit run is digits with single underscores between them. |
| Text.ParseSigned | voter_analytics/models.py:73 | For whitespace-free text, `int()` reads a digit run as its value, `+` and a digit run as the run's value, and `-` and a digit run as its negation, and refuses anything else. |
| Text.ParseSignedSkipsSpaces | voter_analytics/models.py:73 | An optionally signed digit run inside `int()` whitespace, such as " -5 " or "+5", reads as its value, negated exactly when the sign is `-`. |
| Text.ParseIntSkipsSpaces | voter_analytics/models.py:73 | A digit run with `int()` whitespace on either side reads as its value. |
| Text.ParseIntRefusesSeparator | voter_analytics/models.py:73 | `int()` refuses "\x1c5", a text that `strip()` turns into "5". |
| Text.ParseDigitRun | voter_analytics/models.py:73 | A bare digit run reads as its value. |
| Text.ParseShowInt | voter_analytics/models.py:73 | `int(str(n)) == n` for every integer. |
| Text.UpperIsY | voter_analytics/models.py:68 | `s.upper() == 'Y'` holds exactly for "Y" and "y". |
| Text.StripSlice | voter_analytics/models.py:53 | `strip()` keeps a contiguous middle part of the line and removes only whitespace. |
| Text.SplitJoin | voter_analytics/models.py:53 | Splitting the comma-join of comma-free fields gives back those fields. |
| Text.JoinSplit | voter_analytics/models.py:53 | Joining the pieces of a split with the separator gives back the line. |
| Text.Split | voter_analytics/models.py:53 | `split(',')` yields at least one piece, and no piece contains a comma. |
| VoterLoader.VoterTable.Save | voter_analytics/models.py:77 | Saving appends the voter to the table and changes nothing else. |
| VoterLoader.LoadData | voter_analytics/models.py:44-83 | The header is never parsed. Every later line that parses is saved, once and in order. The reported number is the table's total afterwards: the rows already there plus the rows parsed in this run. |
| VoterLoader.LoadedVotersAppend | voter_analytics/models.py:52-82 | Loading two runs of lines gives the voters of the first run followed by those of the second. |
| VoterLoader.SkippedRowIsolated | voter_analytics/models.py:55-82 | A row that fails to parse is skipped, and the rows before and after it load as if it were absent. |
| VoterLoader.LoadedVotersCount | voter_analytics/models.py:55-82 | The number of voters loaded is the number of lines that parse. |
| VoterLoader.AllRowsLoaded | voter_analytics/models.py:52-77 | When every line parses, the voters loaded are exactly the parsed lines, one for one, in file order. |
| VoterViews.ReadCriteria | voter_analytics/views.py:21-38 | A request is rejected exactly when a year or score bound is given but is not an integer. The first such bound is reported, in the order min_year, max_year, min_score. |
| VoterViews.ElectionFilters | voter_analytics/views.py:41-51 | The elections the `Q` object tests are exactly those, of the five, whose names the request lists. |
| VoterViews.ApplyFilters | voter_analytics/views.py:17-54 | Narrowing step by step gives the voters, in table order, that satisfy every criterion the request gives; a bound that is not an integer raises instead. |
| VoterViews.GetQueryset | voter_analytics/views.py:17-56 | The result lists exactly the selected voters, each as often as in the table, sorted by last name and then first name; or it raises for a bad bound. |
| VoterViews.NameOrder | voter_analytics/views.py:56 | Ordering by (last name, first name) is a total preorder. |
| VoterViews.OrderByName | voter_analytics/views.py:56 | The sorted selection is in name order, is a permutation of the selection, and has the same members. |
| VoterViews.SelectedIff | voter_analytics/views.py:28-54 | A voter is listed exactly when all of these hold: it is in the table; its party equals the party given; its birth year lies within both given bounds, inclusive; its score is at least the minimum given; and, when known elections are named, it voted in at least one of them. |
| VoterViews.SelectCount | voter_analytics/views.py:28-54 | A selected voter appears as often as in the table, and any other voter not at all. |
| VoterViews.NoCriteriaSelectsAll | voter_analytics/views.py:28-54 | With no parameters, or only empty ones, and no known election named, the request is accepted and every voter is selected, in table order, before the name sort. `GetQueryset` then lists a permutation of the whole table. |
| VoterViews.UnknownElectionsIgnored | voter_analytics/views.py:41-54 | An election list naming none of the five elections selects as if it were empty. |
| VoterViews.MoreElectionsWiden | voter_analytics/views.py:41-54 | Once a known election is named, naming more never removes a voter: the election criterion is a disjunction. |
| VoterViews.PartyNarrows | voter_analytics/views.py:28-29 | Adding a party never adds a voter: the criteria are a conjunction. |
| VoterViews.ElectionsExample | voter_analytics/views.py:28-54 | Voter A (party D, 2020 state election), B (party R, 2022 general election) and C (party D, neither): party D with either election lists A alone. |
| VoterViews.Range | voter_analytics/views.py:61-62 | `range(lo, hi)` is lo, lo+1, ..., hi-1. |
| VoterViews.MenuChoices | voter_analytics/views.py:61-62 | The year menu is exactly 1920 to 2020, that is 101 years, and the score menu is exactly 0 to 5. |
| VoterViews.GetContextData | voter_analytics/views.py:58-63 | The context gains the year and score menus, which are those of the search page, and keeps every other entry unchanged. |
| VoterViews.SearchContext | voter_analytics/views.py:72-77 | The search page's context holds the two menus and nothing else. |
| VoterViews.DecimalBoundsAccepted | voter_analytics/views.py:31-38 | A bound sent as an integer's decimal text, as every menu choice is, is accepted and read as that integer. |
| MiniInsta.ProfileLabel | mini_insta/models.py:18-20 | The label is the username, then " or ", then the display name. |
| MiniInsta.ProfileLabelInjective | mini_insta/models.py:20 | When usernames contain no space, two profiles with the same label have the same username and display name. |
| MiniInsta.GetAllPosts | mini_insta/models.py:22-24 | Only and every post of this profile is returned, newest first: timestamps do not increase. |
| MiniInsta.PostsCount | mini_insta/models.py:24 | Each post of the profile appears as often as it is stored, and no other post appears. |
| MiniInsta.PostsDisjoint | mini_insta/models.py:24 | Two different profiles never list the same post. |
| MiniInsta.GetAllPhotos | mini_insta/models.py:42-44 | Exactly the photos of this post are returned. |
| MiniInsta.PhotosCount | mini_insta/models.py:44 | Each photo of the post appears as often as it is stored, and no other photo appears. |
| MiniInsta.GetImageUrl | mini_insta/models.py:59-65 | With a file uploaded, the file's storage url is returned; otherwise the url field is returned, even when it is empty. |
| MiniInsta.FileWinsOverLink | mini_insta/models.py:62-63 | With a file uploaded, the url field has no effect on the url shown. |
| Seqs.FilterCount | voter_analytics/views.py:28-54 | A filter keeps each accepted record as often as it occurs, and no other record. |
| Seqs.FilterMonotone | voter_analytics/views.py:28-54 | A stronger predicate keeps a sub-multiset of what a weaker one keeps. |
| Seqs.SortBySorted | voter_analytics/views.py:56 | Under a total preorder the sorted sequence is in order. |

## Left out

- **Pagination, templates and routing.** Pagination (`paginate_by = 100`, voter_analytics/views.py:15), templates, URL routing and admin registration are presentation and framework plumbing. The model covers the query set before it is paginated.
- **File and console I/O in `load_data`.** The file `open`, `readline` and the `print` messages are left out. The file is a sequence of lines, and the messages change no data.
- **Database details in `load_data`.** Failures inside `voter.save()` are not modelled: constraint errors, column-length limits (`max_length` on `party_affiliation`, `apt_num`, `zip_code`, `precinct_num`) and connection errors. On a backend that enforces lengths, such a row would be skipped too. The same holds for a `voter_score` outside the backend's integer column, beyond 64 bits on SQLite or beyond 32 bits on PostgreSQL: `voter.save()` raises inside the `try` and the source skips the row, while the model saves it.
- **Where the loader's data comes from.** The file name is fixed in the source. The database is the `rows` of a `VoterTable`; other writers to the table are not modelled.
- Text.ParseInt: CPython 3.11 and later refuse `int()` of a text with more than 4300 digits, and `str()` of such an integer. The model, and `Text.ParseShowInt`'s "every integer", have no such limit.
- **Unicode digits.** `int()` and `strptime` also accept non-ASCII decimal digits; the model accepts only ASCII digits.
- **Case mapping of other characters.** `str.upper()` is modelled for ASCII only. This cannot change which fields equal "Y", because only "y" and "Y" upper-case to "Y".
- VoterViews.ReadCriteria: year bounds outside 1 to 9999 are not modelled. Django makes a year lookup's date bounds from the year given, and such a year raises `ValueError` there, or `OverflowError` for very large years. The model compares the bound as an integer.
- **Collation.** The database's collation for `ORDER BY` on text is taken to be code-point order (`Text.StrLe`).
- **Tie order.** Voters with equal names, and posts with equal timestamps, may come in any order. The contracts fix only sortedness and a permutation, not which permutation; `SortBy` is one such order.
- **Photo order.** `get_all_photos` has no `order_by`, so the database may return photos in any order. The model keeps table order, and its contracts state only membership and multiplicity.
- MiniInsta.GetImageUrl: the file's url comes from the file storage, which is a parameter `fileUrl`. A file is present when its stored name is non-empty. The docstring of `get_image_url` says the url field is tried first. The code tries the file first, and the model follows the code.
- **Timestamps.** `DateTimeField` values are integers in the model, and `auto_now` is not modelled: the clock is outside the model.
- **Other parts of the repository.** The inventory app, the dad-jokes, quotes and restaurant apps, the social app's views, forms and mixins, `Post.__str__` and `Photo.__str__`, and `get_absolute_url` are not part of this model. Of these, `get_absolute_url` is URL reversing and the two `__str__` methods are display text.
- **Missing views.** The chart and aggregation view `GraphsView` and a `Search_View` view are named in voter_analytics/urls.py:10-11. Neither is defined in voter_analytics/views.py, so there is nothing to model. The search page is `search_view`, modelled by `SearchContext`.
