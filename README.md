# Heavenly Archive: Event model and CLI selection rules

This project models, in Dafny, the two parts of the Heavenly Archive event
logger that hold rules rather than framework wiring:

- **The Event record** (`backend/models/event.py`). It covers the closed
  `EventCategory` (six values) and `EventImportance` (five values)
  enumerations and their lowercase string values. It covers the `MEDIUM`
  importance default that an inserted row receives, and `Event.to_dict`.
  `to_dict` renders the enums as their values and decodes the
  comma-delimited `tags` column with `tags.split(",") if tags else []`.
  Python's `str.split(",")` and `",".join` are written out as `SplitComma`
  and `JoinComma`. The round trips between them are proved, including the
  edge cases `None`, `""` and `[""]`.
- **The command-line front end** (`cli.py`).
  - `list` takes the Python slice `sample_events[:limit]` of its three
    demonstration events, with negative limits counting from the end. It
    then keeps the events that match an optional category. The model proves:
    - the length bound;
    - that every emitted row matches the filter and every matching event
      in the slice is emitted;
    - that the output is an order-preserving subsequence of the samples;
    - that ids ascend and dates descend in the output.
  - `add` resolves its two choice options against sets that are proved
    equal to the enums' values. It replaces a missing or empty description
    or tag text with a fixed string. It labels each field by replacing `_`
    with a space and title-casing the result.

Both table-building loops are modelled as methods. Each appends one row per
emitted item to a sequence and is proved equal to a specification function.

Modules: `Wrappers` (`Option`, `Result`, Python truthiness of an optional
string), `EventModel` (event.py), `Cli` (cli.py).

### Behaviour worth noting

The model follows the code in each case below:
- `list` applies the limit **before** the category filter. It does not
  filter first. `Cli.LimitBeforeFilter` shows the difference: with limit 1
  and category `virtue`, nothing is emitted, although a `virtue` sample
  exists.
- A zero or negative `limit` is not rejected. It follows Python slice
  semantics: `-1` drops the last sample, and `-5` gives nothing.
- Rows are not sorted by the code. They come out in sample order, which
  happens to be newest first (`Cli.ListKeepsSampleOrder`).
- The tag list does not round-trip losslessly for every delimiter-free
  list. `[""]` is stored as `""`, which decodes to `[]`
  (`EventModel.TagsRoundTrip`).

## Model

| member | source | states |
|---|---|---|
| `EventModel.CategoryValue` | backend/models/event.py:15-22 | each category's value is a non-empty lowercase ASCII word |
| `EventModel.CategoryFromValue` | backend/models/event.py:15-22 | lookup by value accepts only a category's own value, and the member found has that value |
| `EventModel.CategoryRoundTrip` | backend/models/event.py:15-22 | looking a category up by its value gives the same category back |
| `EventModel.CategoryTaxonomy` | backend/models/event.py:15-22 | there are exactly six categories, their values are virtue, trial, victory, legendary, divine, mortal in that order, and the value map is injective |
| `EventModel.CategoryValueIff` | backend/models/event.py:15-22 | a string is accepted by lookup exactly when it is some category's value |
| `EventModel.ImportanceValue` | backend/models/event.py:25-31 | each importance's value is a non-empty lowercase ASCII word |
| `EventModel.ImportanceFromValue` | backend/models/event.py:25-31 | lookup by value accepts only an importance's own value, and the member found has that value |
| `EventModel.ImportanceRoundTrip` | backend/models/event.py:25-31 | looking an importance up by its value gives the same importance back |
| `EventModel.ImportanceTaxonomy` | backend/models/event.py:25-31 | there are exactly five levels with values low, medium, high, critical, legendary, and the value map is injective |
| `EventModel.ImportanceValueIff` | backend/models/event.py:25-31 | a string is accepted by lookup exactly when it is some importance's value |
| `EventModel.Insert` | backend/models/event.py:40-51 | a row inserted without an importance has importance MEDIUM; a row inserted without an id gets the database-assigned key, and a given id is kept; the other fields are stored as given |
| `EventModel.SplitComma` | backend/models/event.py:73 | `split(",")` gives one piece more than there are commas, no piece contains a comma, and joining the pieces with "," gives the input back |
| `EventModel.SplitCommaFree` | backend/models/event.py:73 | a comma-free string splits into the one-element list of itself |
| `EventModel.SplitAtComma` | backend/models/event.py:73 | splitting `a + "," + b` with comma-free `a` gives `a` followed by the split of `b` |
| `EventModel.SplitJoin` | backend/models/event.py:73 | splitting the join of a non-empty list of comma-free tags gives the list back |
| `EventModel.JoinEmptyIff` | backend/models/event.py:73 | a join is empty exactly when the list is `[]` or `[""]` |
| `EventModel.DecodeTags` | backend/models/event.py:73 | `None` and `""` decode to `[]`; other text decodes to comma-free tags, one more than its commas, whose join is the text |
| `EventModel.DecodeThenJoin` | backend/models/event.py:73 | joining the tags decoded from any stored text gives that text back |
| `EventModel.TagsRoundTrip` | backend/models/event.py:73 | comma-free tags other than `[""]` survive storing as their join and decoding; `[""]` comes back as `[]` |
| `EventModel.ToDict` | backend/models/event.py:65-79 | category and importance become lowercase values that identify them again; tags are decoded as above; id, title, description, location and URL are copied |
| `EventModel.ToDictEnumsInjective` | backend/models/event.py:71-72 | two events with equal dictionary category and importance strings have equal enums |
| `Cli.Slice` | cli.py:101 | `rows[:limit]` is a prefix of length `min(limit, n)` for `limit >= 0` and `max(n + limit, 0)` for negative limits |
| `Cli.Matches` | cli.py:102 | `not category or event["category"] == category`: with category `None` or `""` every event matches; otherwise an event matches exactly when its category equals the filter |
| `Cli.Filter` | cli.py:102 | the filter output is no longer than its input and every element passes `not category or category == e.category` |
| `Cli.Select` | cli.py:101-102 | for `limit >= 0` at most `limit` rows are emitted; with a non-empty category every row has that category |
| `Cli.FilterMembership` | cli.py:102 | an event is kept exactly when it is in the input and passes the filter |
| `Cli.FilterUnfiltered` | cli.py:102 | with category `None` or `""` the filter keeps everything |
| `Cli.SelectMembership` | cli.py:101-102 | `list` emits exactly the matching events of the slice, and the whole slice when there is no category |
| `Cli.FilterIsSubsequence` | cli.py:102 | the filter output is the input at strictly increasing positions |
| `Cli.FilterPositionsExact` | cli.py:101-102 | the positions the filter keeps are exactly the positions whose event matches, so a repeated matching event is kept every time it occurs |
| `Cli.SelectIsSubsequence` | cli.py:101-102 | `list`'s output is an order-preserving subsequence of the sample list |
| `Cli.LexLessLastChar` | cli.py:89-91 | strings that differ only in a smaller last character are ordered before |
| `Cli.SampleDatesDescend` | cli.py:89-91 | 2025-11-16 < 2025-11-17 < 2025-11-18 as strings |
| `Cli.SamplesOrdered` | cli.py:88-92 | the sample ids ascend 1, 2, 3 and their dates descend |
| `Cli.SubsequenceKeepsOrder` | cli.py:101-102 | a subsequence of an id-ascending, date-descending list is ordered the same way |
| `Cli.ListKeepsSampleOrder` | cli.py:88-102 | for every limit and category, `list` emits ids ascending and dates descending |
| `Cli.LimitBeforeFilter` | cli.py:101-102 | limit 1 with category virtue emits nothing although a virtue sample exists; limit -1 emits the first two samples and limit -5 none |
| `Cli.SamplesUseEnumValues` | cli.py:88-92 | every sample's category and importance strings are values of the enums |
| `Cli.DecimalString` | cli.py:104 | `str(id)` is a non-empty string of decimal digits |
| `Cli.DecimalStringValue` | cli.py:104 | the digits of `str(id)` denote the id, and there is no leading zero unless the id is 0 |
| `Cli.Cells` | cli.py:104-108 | the five cells of a row: the id as the decimal digits that denote it, then title, category, importance and date unchanged |
| `Cli.Render` | cli.py:103-109 | one row per event |
| `Cli.RenderAppend` | cli.py:103-109 | adding an event to the table appends exactly its cells: id, title, category, importance, date |
| `Cli.ListRows` | cli.py:101-109 | the loop adds exactly the rows of the selected events; at most `limit` rows, each with the filtered category |
| `Cli.ResolveLimit` | cli.py:80 | a missing `--limit` becomes 10; a given limit is kept |
| `Cli.List` | cli.py:79-109 | the `list` command emits the rows of the selection of the sample events under the resolved limit, at most that many when it is non-negative, and every sample row when neither option is given |
| `Cli.DefaultListShowsAll` | cli.py:80-102 | with the default limit 10 and no category, all three samples are selected |
| `Cli.Choose` | cli.py:41-46 | a missing option takes its default; a given value is accepted exactly when it is one of the choices, and otherwise refused with an error naming the option and value |
| `Cli.ChoicesAreEnumValues` | cli.py:41-46 | the category and importance choice sets are exactly the enum values, and the defaults are the values of VIRTUE and MEDIUM |
| `Cli.OrDefault` | cli.py:62-63 | `value or fallback`: a missing or empty value becomes the fallback, any other passes through, and the result is never empty when the fallback is not |
| `Cli.EventData` | cli.py:58-65 | the six fields in insertion order; description defaults to "No description provided", tags to "None", the rest are as given |
| `Cli.ReplaceUnderscore` | cli.py:73 | every `_` becomes a space and every other character is kept |
| `Cli.Title` | cli.py:73 | title-casing keeps the length |
| `Cli.Label` | cli.py:73 | `key.replace("_", " ").title()` is as long as the key and contains no underscore; `Cli.LabelAt` states its characters |
| `Cli.TitleKeepsNoUnderscore` | cli.py:73 | title-casing a string without underscores yields none |
| `Cli.TitleFromAt` | cli.py:73 | each title-cased character depends only on that character and whether the one before it is a letter |
| `Cli.LabelAt` | cli.py:73 | in the label of a lowercase key, `_` becomes a space, a letter at the start of a word becomes upper case, and other letters are kept |
| `Cli.LabelIs` | cli.py:73 | a string that matches `LabelChar` character by character is the label |
| `Cli.CreatedAtLabel` | cli.py:73 | `"created_at"` is shown as `"Created At"` |
| `Cli.AddKeysAreKeys` | cli.py:58-64 | all six keys of `event_data` are lowercase ASCII with underscores |
| `Cli.LabelRows` | cli.py:72-73 | one row per field |
| `Cli.FieldRows` | cli.py:72-73 | the loop adds, in order, one row of label and value per field |
| `Cli.Add` | cli.py:39-76 | `add` succeeds exactly when both choice options resolve; it then displays the labelled rows of `event_data`, and otherwise reports an invalid-choice error |

## Left out

- Timestamps are left out: `event_date`, `created_at`, `updated_at`, their
  `utcnow` defaults, `onupdate` and their `isoformat()` entries in
  `to_dict`. They are clock and library calls. `add`'s `created_at` is a
  parameter.
- Persistence is left out: SQLAlchemy and the database's column constraints
  (nullability, lengths, indexes). `Event` assumes a stored category and
  importance.
- `Event.__repr__` is a debugging string and is not modelled.
- Terminal output is left out: rich tables, panels, progress bars,
  `time.sleep` and the banner. The rows added to a table are modelled as a
  returned sequence of cells.
- The `search`, `stats` and `init` commands print fixed text and numbers.
  main.py (HTTP app construction, CORS, HTML page, health check) is not part
  of this model.
- click's parsing is left out. Only the choice sets, the defaults and the
  choice check are modelled. A given `--limit` is taken as an integer;
  click's conversion of the option text is not modelled.
- Store operations such as create, update, delete, substring search,
  aggregate counts and newest-first sorting have no code in these files,
  and neither does any concurrency control.
- Cli.Add: when both choice options are invalid, the contract allows either
  error. Which one is reported depends on click's processing order.
- Cli.Title: models `str.title()` for ASCII letters only. Python's
  Unicode case rules are not modelled; all keys are ASCII.
- The labels of the five keys other than `created_at` are not stated as
  constants. `Cli.LabelAt` and `Cli.AddKeysAreKeys` determine them
  character by character.
