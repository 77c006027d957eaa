/**
 * The command-line front end (cli.py): which sample events `list` emits and
 * in what order, and how `add` resolves its option choices, fills in
 * defaults and labels each field of the event it displays.
 */
module Cli {
  import opened Wrappers
  import EventModel

  // ---------------------------------------------------------------------
  // `list`: a slice of the sample events, then a category filter
  // ---------------------------------------------------------------------

  /** One of the demonstration events the `list` command displays. */
  datatype SampleEvent = SampleEvent(
    id: nat, title: string, category: string, importance: string, date: string)

  const SampleEvents: seq<SampleEvent> := [
    SampleEvent(1, "Completed First Project", "victory", "high", "2025-11-18"),
    SampleEvent(2, "Learned FastAPI", "virtue", "medium", "2025-11-17"),
    SampleEvent(3, "Overcame Bug Challenge", "trial", "high", "2025-11-16")
  ]

  /** The `--limit` default. */
  const DefaultLimit: int := 10

  /**
   * `rows[:limit]`: a negative stop counts from the end, and the stop is
   * clamped into `0..|rows|`.
   */
  function Slice<T>(rows: seq<T>, limit: int): (p: seq<T>)
    ensures |p| <= |rows| && p == rows[..|p|]
    ensures 0 <= limit ==> |p| == if limit <= |rows| then limit else |rows|
    ensures limit < 0 ==> |p| == if |rows| + limit >= 0 then |rows| + limit else 0
  {
    var stop := if limit < 0 then |rows| + limit else limit;
    rows[..if stop < 0 then 0 else if stop > |rows| then |rows| else stop]
  }

  /** `not category or event["category"] == category`. */
  predicate Matches(e: SampleEvent, category: Option<string>)
    ensures category == None || category == Some("") ==> Matches(e, category)
    ensures Truthy(category) ==> (Matches(e, category) <==> e.category == category.value)
  {
    !Truthy(category) || e.category == category.value
  }

  /** The events of `rows` that pass the filter, in their order. */
  function Filter(rows: seq<SampleEvent>, category: Option<string>): (r: seq<SampleEvent>)
    ensures |r| <= |rows|
    ensures forall k :: 0 <= k < |r| ==> Matches(r[k], category)
  {
    if rows == [] then []
    else
      var last := rows[|rows| - 1];
      Filter(rows[..|rows| - 1], category) + (if Matches(last, category) then [last] else [])
  }

  /** What `list` emits: the limit is applied first, then the filter. */
  function Select(rows: seq<SampleEvent>, limit: int, category: Option<string>): (r: seq<SampleEvent>)
    ensures 0 <= limit ==> |r| <= limit
    ensures Truthy(category) ==> forall k :: 0 <= k < |r| ==> r[k].category == category.value
  {
    Filter(Slice(rows, limit), category)
  }

  /** An event is kept exactly when it is in `rows` and passes the filter. */
  lemma {:induction false} FilterMembership(rows: seq<SampleEvent>, category: Option<string>, e: SampleEvent)
    ensures e in Filter(rows, category) <==> e in rows && Matches(e, category)
  {
    if rows != [] {
      var front := rows[..|rows| - 1];
      FilterMembership(front, category, e);
      assert rows == front + [rows[|rows| - 1]];
    }
  }

  /** Without a category (`None` or `""`) nothing is filtered out. */
  lemma {:induction false} FilterUnfiltered(rows: seq<SampleEvent>, category: Option<string>)
    requires !Truthy(category)
    ensures Filter(rows, category) == rows
  {
    if rows != [] {
      FilterUnfiltered(rows[..|rows| - 1], category);
      assert rows == rows[..|rows| - 1] + [rows[|rows| - 1]];
    }
  }

  /** `list` emits every event of the slice that matches, and only those. */
  lemma SelectMembership(rows: seq<SampleEvent>, limit: int, category: Option<string>, e: SampleEvent)
    ensures e in Select(rows, limit, category) <==> e in Slice(rows, limit) && Matches(e, category)
    ensures !Truthy(category) ==> Select(rows, limit, category) == Slice(rows, limit)
  {
    FilterMembership(Slice(rows, limit), category, e);
    if !Truthy(category) {
      FilterUnfiltered(Slice(rows, limit), category);
    }
  }

  /** `r` is `rows` at the strictly increasing positions `idx`. */
  ghost predicate SubsequenceAt(r: seq<SampleEvent>, rows: seq<SampleEvent>, idx: seq<nat>) {
    && |idx| == |r|
    && (forall k :: 0 <= k < |idx| ==> idx[k] < |rows| && r[k] == rows[idx[k]])
    && (forall k, m :: 0 <= k < m < |idx| ==> idx[k] < idx[m])
  }

  ghost predicate IsSubsequence(r: seq<SampleEvent>, rows: seq<SampleEvent>) {
    exists idx :: SubsequenceAt(r, rows, idx)
  }

  /** The positions in `rows` of the events that pass the filter. */
  ghost function FilterPositions(rows: seq<SampleEvent>, category: Option<string>): seq<nat> {
    if rows == [] then []
    else
      FilterPositions(rows[..|rows| - 1], category)
        + (if Matches(rows[|rows| - 1], category) then [|rows| - 1] else [])
  }

  lemma {:induction false} FilterIsSubsequence(rows: seq<SampleEvent>, category: Option<string>)
    ensures SubsequenceAt(Filter(rows, category), rows, FilterPositions(rows, category))
  {
    if rows != [] {
      var front := rows[..|rows| - 1];
      FilterIsSubsequence(front, category);
    }
  }

  /** A position is recorded exactly when the event there passes the filter. */
  lemma {:induction false} FilterPositionsExact(rows: seq<SampleEvent>, category: Option<string>, k: nat)
    ensures k in FilterPositions(rows, category) <==> k < |rows| && Matches(rows[k], category)
  {
    if rows != [] {
      var front := rows[..|rows| - 1];
      FilterPositionsExact(front, category, k);
      if k < |front| {
        assert front[k] == rows[k];
      }
    }
  }

  /** `list`'s output is an order-preserving subsequence of the sample list. */
  lemma SelectIsSubsequence(rows: seq<SampleEvent>, limit: int, category: Option<string>)
    ensures IsSubsequence(Select(rows, limit, category), rows)
  {
    var p := Slice(rows, limit);
    FilterIsSubsequence(p, category);
    var idx := FilterPositions(p, category);
    assert SubsequenceAt(Select(rows, limit, category), rows, idx);
  }

  /** Strict lexicographic order on strings; ISO dates compare chronologically under it. */
  predicate LexLess(a: string, b: string) {
    if a == [] then b != []
    else if b == [] then false
    else a[0] < b[0] || (a[0] == b[0] && LexLess(a[1..], b[1..]))
  }

  /** Ids ascend and dates descend along `rows`. */
  ghost predicate SampleOrder(rows: seq<SampleEvent>) {
    forall k, m :: 0 <= k < m < |rows| ==>
      rows[k].id < rows[m].id && LexLess(rows[m].date, rows[k].date)
  }

  /** Two strings that differ only in a last character compare as that character does. */
  lemma {:induction false} LexLessLastChar(prefix: string, x: char, y: char)
    requires x < y
    ensures LexLess(prefix + [x], prefix + [y])
  {
    if prefix != [] {
      LexLessLastChar(prefix[1..], x, y);
      assert (prefix + [x])[1..] == prefix[1..] + [x];
      assert (prefix + [y])[1..] == prefix[1..] + [y];
    }
  }

  /** The three sample dates, newest first, compare as dates do. */
  lemma SampleDatesDescend()
    ensures LexLess("2025-11-17", "2025-11-18")
    ensures LexLess("2025-11-16", "2025-11-17")
    ensures LexLess("2025-11-16", "2025-11-18")
  {
    var day := "2025-11-1";
    assert "2025-11-18" == day + ['8'] && "2025-11-17" == day + ['7'] && "2025-11-16" == day + ['6'];
    LexLessLastChar(day, '7', '8');
    LexLessLastChar(day, '6', '7');
    LexLessLastChar(day, '6', '8');
  }

  lemma SamplesOrdered()
    ensures SampleOrder(SampleEvents)
  {
    SampleDatesDescend();
    var rows := SampleEvents;
    assert rows[0].date == "2025-11-18" && rows[1].date == "2025-11-17" && rows[2].date == "2025-11-16";
    assert rows[0].id == 1 && rows[1].id == 2 && rows[2].id == 3;
    forall k, m | 0 <= k < m < |rows|
      ensures rows[k].id < rows[m].id && LexLess(rows[m].date, rows[k].date)
    {
      assert |rows| == 3;
      if m == 1 { assert k == 0; } else { assert m == 2 && (k == 0 || k == 1); }
    }
  }

  lemma SubsequenceKeepsOrder(r: seq<SampleEvent>, rows: seq<SampleEvent>)
    requires SampleOrder(rows) && IsSubsequence(r, rows)
    ensures SampleOrder(r)
  {
    var idx :| SubsequenceAt(r, rows, idx);
    forall k, m | 0 <= k < m < |r|
      ensures r[k].id < r[m].id && LexLess(r[m].date, r[k].date)
    {
      assert idx[k] < idx[m];
    }
  }

  /** Whatever the limit and filter, `list` emits ids ascending and dates descending. */
  lemma ListKeepsSampleOrder(limit: int, category: Option<string>)
    ensures SampleOrder(Select(SampleEvents, limit, category))
  {
    SamplesOrdered();
    SelectIsSubsequence(SampleEvents, limit, category);
    SubsequenceKeepsOrder(Select(SampleEvents, limit, category), SampleEvents);
  }

  /** The limit is applied before the filter, so an event past the limit is never shown. */
  lemma LimitBeforeFilter()
    ensures Select(SampleEvents, 1, Some("virtue")) == []
    ensures Filter(SampleEvents, Some("virtue")) == [SampleEvents[1]]
    ensures Select(SampleEvents, -1, None) == SampleEvents[..2]
    ensures Select(SampleEvents, -5, None) == []
  {
    assert SampleEvents[..1] == [SampleEvents[0]];
    assert SampleEvents[..2][..1] == [SampleEvents[0]];
    assert SampleEvents[..2] == [SampleEvents[0], SampleEvents[1]];
    assert SampleEvents[..3] == SampleEvents;
  }

  /** Every sample carries a category and an importance from the closed sets. */
  lemma SamplesUseEnumValues()
    ensures forall k :: 0 <= k < |SampleEvents| ==>
      EventModel.CategoryFromValue(SampleEvents[k].category).Some?
      && EventModel.ImportanceFromValue(SampleEvents[k].importance).Some?
  {
  }

  /** `str(n)` for a non-negative integer. */
  function DecimalString(n: nat): (s: string)
    ensures |s| >= 1 && forall k :: 0 <= k < |s| ==> '0' <= s[k] <= '9'
  {
    var digit := (('0' as int) + n % 10) as char;
    if n < 10 then [digit] else DecimalString(n / 10) + [digit]
  }

  /** The number a string of decimal digits denotes. */
  function DigitsValue(s: string): nat
    requires forall k :: 0 <= k < |s| ==> '0' <= s[k] <= '9'
  {
    if s == [] then 0 else 10 * DigitsValue(s[..|s| - 1]) + (s[|s| - 1] as int - '0' as int)
  }

  /** `str(n)` denotes `n` and has no leading zero. */
  lemma {:induction false} DecimalStringValue(n: nat)
    ensures DigitsValue(DecimalString(n)) == n
    ensures DecimalString(n)[0] != '0' || n == 0
  {
    if n >= 10 {
      DecimalStringValue(n / 10);
      var s := DecimalString(n);
      assert s[..|s| - 1] == DecimalString(n / 10);
    }
  }

  /** The cells of one table row of `list`. */
  function Cells(e: SampleEvent): (cells: seq<string>)
    ensures |cells| == 5 && |cells[0]| >= 1
    ensures forall k :: 0 <= k < |cells[0]| ==> '0' <= cells[0][k] <= '9'
    ensures DigitsValue(cells[0]) == e.id
    ensures cells[1] == e.title && cells[2] == e.category
    ensures cells[3] == e.importance && cells[4] == e.date
  {
    DecimalStringValue(e.id);
    [DecimalString(e.id), e.title, e.category, e.importance, e.date]
  }

  /** The rows a sequence of events becomes, one per event, in order. */
  function Render(rows: seq<SampleEvent>): (t: seq<seq<string>>)
    ensures |t| == |rows|
  {
    seq(|rows|, k requires 0 <= k < |rows| => Cells(rows[k]))
  }

  lemma FilterAppend(rows: seq<SampleEvent>, e: SampleEvent, category: Option<string>)
    ensures Filter(rows + [e], category)
         == Filter(rows, category) + (if Matches(e, category) then [e] else [])
  {
    assert (rows + [e])[..|rows|] == rows;
  }

  lemma RenderAppend(rows: seq<SampleEvent>, e: SampleEvent)
    ensures Render(rows + [e]) == Render(rows) + [Cells(e)]
  {
  }

  /**
   * The loop of the `list` command over `rows`: walks the slice and adds a
   * row for each event that passes the filter.
   */
  method ListRows(rows: seq<SampleEvent>, limit: int, category: Option<string>)
    returns (table: seq<seq<string>>)
    ensures table == Render(Select(rows, limit, category))
    ensures 0 <= limit ==> |table| <= limit
    ensures Truthy(category) ==> forall k :: 0 <= k < |table| ==> table[k][2] == category.value
  {
    table := [];
    var candidates := Slice(rows, limit);
    for n := 0 to |candidates|
      invariant table == Render(Filter(candidates[..n], category))
    {
      var event := candidates[n];
      assert candidates[..n + 1] == candidates[..n] + [event];
      FilterAppend(candidates[..n], event, category);
      if Matches(event, category) {
        RenderAppend(Filter(candidates[..n], category), event);
        table := table + [Cells(event)];
      }
    }
    assert candidates[..|candidates|] == candidates;
  }

  /** The `--limit` option: absent takes the default of 10. */
  function ResolveLimit(limit: Option<int>): (n: int)
    ensures limit == None ==> n == DefaultLimit
    ensures limit.Some? ==> n == limit.value
  {
    match limit
    case None => DefaultLimit
    case Some(n) => n
  }

  /** The `list` command on the sample events. */
  method List(limit: Option<int>, category: Option<string>) returns (table: seq<seq<string>>)
    ensures table == Render(Select(SampleEvents, ResolveLimit(limit), category))
    ensures 0 <= ResolveLimit(limit) ==> |table| <= ResolveLimit(limit)
    ensures limit == None && !Truthy(category) ==> table == Render(SampleEvents)
  {
    table := ListRows(SampleEvents, ResolveLimit(limit), category);
    if limit == None && !Truthy(category) {
      DefaultListShowsAll(category);
    }
  }

  /** With the default limit and no category, `list` shows every sample event. */
  lemma DefaultListShowsAll(category: Option<string>)
    requires !Truthy(category)
    ensures Select(SampleEvents, DefaultLimit, category) == SampleEvents
  {
    FilterUnfiltered(SampleEvents, category);
    assert SampleEvents[..3] == SampleEvents;
  }

  // ---------------------------------------------------------------------
  // `add`: choices, defaults and field labels
  // ---------------------------------------------------------------------

  /** A value given for a choice option that is not one of its choices. */
  datatype AddError = InvalidChoice(option: string, given: string)

  const CategoryChoices: seq<string> := ["virtue", "trial", "victory", "legendary", "divine", "mortal"]
  const ImportanceChoices: seq<string> := ["low", "medium", "high", "critical", "legendary"]
  const DefaultCategory: string := "virtue"
  const DefaultImportance: string := "medium"
  const NoDescription: string := "No description provided"
  const NoTags: string := "None"

  /** The keys of `event_data`, in insertion order. */
  const AddKeys: seq<string> := ["title", "category", "importance", "description", "tags", "created_at"]

  /** A choice option: absent takes the default, a listed value is kept, anything else is refused. */
  function Choose(option: string, given: Option<string>, choices: seq<string>, default: string)
    : (r: Result<string, AddError>)
    ensures given == None ==> r == Ok(default)
    ensures given.Some? ==> (r.Ok? <==> given.value in choices)
    ensures given.Some? && r.Ok? ==> r.value == given.value
    ensures r.Err? ==> given.Some? && r.error == InvalidChoice(option, given.value)
  {
    match given
    case None => Ok(default)
    case Some(v) => if v in choices then Ok(v) else Err(InvalidChoice(option, v))
  }

  /** The choice sets and defaults of `add` are the enum values and the enum defaults. */
  lemma ChoicesAreEnumValues()
    ensures forall s :: s in CategoryChoices <==> EventModel.CategoryFromValue(s).Some?
    ensures forall s :: s in ImportanceChoices <==> EventModel.ImportanceFromValue(s).Some?
    ensures EventModel.CategoryFromValue(DefaultCategory) == Some(EventModel.Virtue)
    ensures EventModel.ImportanceFromValue(DefaultImportance) == Some(EventModel.Medium)
    ensures DefaultCategory in CategoryChoices && DefaultImportance in ImportanceChoices
  {
    forall s | EventModel.CategoryFromValue(s).Some? ensures s in CategoryChoices {
      var c := EventModel.CategoryFromValue(s).value;
      assert s == EventModel.CategoryValue(c);
    }
    forall s | EventModel.ImportanceFromValue(s).Some? ensures s in ImportanceChoices {
      var i := EventModel.ImportanceFromValue(s).value;
      assert s == EventModel.ImportanceValue(i);
    }
  }

  /** Python's `value or fallback` on an optional string. */
  function OrDefault(value: Option<string>, fallback: string): (r: string)
    ensures Truthy(value) ==> r == value.value
    ensures !Truthy(value) ==> r == fallback
    ensures fallback != "" ==> r != ""
  {
    if Truthy(value) then value.value else fallback
  }

  /** `event_data` as (key, value) pairs in insertion order. */
  function EventData(title: string, category: string, importance: string,
                     description: Option<string>, tags: Option<string>,
                     createdAt: string): (fields: seq<(string, string)>)
    ensures |fields| == |AddKeys| && forall k :: 0 <= k < |fields| ==> fields[k].0 == AddKeys[k]
    ensures fields[0].1 == title && fields[1].1 == category && fields[2].1 == importance
    ensures fields[3].1 != "" && fields[4].1 != "" && fields[5].1 == createdAt
    ensures Truthy(description) ==> fields[3].1 == description.value
    ensures !Truthy(description) ==> fields[3].1 == NoDescription
    ensures Truthy(tags) ==> fields[4].1 == tags.value
    ensures !Truthy(tags) ==> fields[4].1 == NoTags
  {
    [("title", title), ("category", category), ("importance", importance),
     ("description", OrDefault(description, NoDescription)),
     ("tags", OrDefault(tags, NoTags)),
     ("created_at", createdAt)]
  }

  predicate IsCased(c: char) {
    'a' <= c <= 'z' || 'A' <= c <= 'Z'
  }

  function Upper(c: char): (u: char)
    ensures 'a' <= c <= 'z' ==> 'A' <= u <= 'Z'
  {
    if 'a' <= c <= 'z' then (c as int - 32) as char else c
  }

  function Lower(c: char): (l: char)
    ensures 'A' <= c <= 'Z' ==> 'a' <= l <= 'z'
  {
    if 'A' <= c <= 'Z' then (c as int + 32) as char else c
  }

  /** One step of `str.title()`: a letter after a letter is lowered, any other letter raised. */
  function TitleChar(c: char, prevCased: bool): char {
    if !IsCased(c) then c else if prevCased then Lower(c) else Upper(c)
  }

  function TitleFrom(s: string, prevCased: bool): (r: string)
    ensures |r| == |s|
  {
    if s == [] then [] else [TitleChar(s[0], prevCased)] + TitleFrom(s[1..], IsCased(s[0]))
  }

  /** `s.title()` for ASCII text. */
  function Title(s: string): (r: string)
    ensures |r| == |s|
  {
    TitleFrom(s, false)
  }

  /** `s.replace("_", " ")`. */
  function ReplaceUnderscore(s: string): (r: string)
    ensures |r| == |s|
    ensures forall k :: 0 <= k < |s| ==> r[k] == if s[k] == '_' then ' ' else s[k]
  {
    if s == [] then []
    else [if s[0] == '_' then ' ' else s[0]] + ReplaceUnderscore(s[1..])
  }

  /** Title-casing never produces an underscore from a string that has none. */
  lemma {:induction false} TitleKeepsNoUnderscore(s: string, prevCased: bool)
    requires forall k :: 0 <= k < |s| ==> s[k] != '_'
    ensures forall k :: 0 <= k < |s| ==> TitleFrom(s, prevCased)[k] != '_'
  {
    if s != [] {
      TitleKeepsNoUnderscore(s[1..], IsCased(s[0]));
      var t := TitleFrom(s, prevCased);
      assert t == [TitleChar(s[0], prevCased)] + TitleFrom(s[1..], IsCased(s[0]));
      forall k | 0 <= k < |s| ensures t[k] != '_' {
        if k > 0 { assert t[k] == TitleFrom(s[1..], IsCased(s[0]))[k - 1]; }
      }
    }
  }

  /**
   * The label shown for a key of `event_data`: as long as the key, with no
   * underscore left; `LabelAt` gives its characters.
   */
  function Label(key: string): (shown: string)
    ensures |shown| == |key|
    ensures forall k :: 0 <= k < |shown| ==> shown[k] != '_'
  {
    var spaced := ReplaceUnderscore(key);
    TitleKeepsNoUnderscore(spaced, false);
    Title(spaced)
  }

  /** Character `k` of a title-cased string depends on that character and the one before. */
  lemma {:induction false} TitleFromAt(s: string, prevCased: bool, k: nat)
    requires k < |s|
    ensures TitleFrom(s, prevCased)[k] == TitleChar(s[k], if k == 0 then prevCased else IsCased(s[k - 1]))
  {
    if k > 0 {
      TitleFromAt(s[1..], IsCased(s[0]), k - 1);
    }
  }

  /** A key of lower-case letters and underscores. */
  predicate IsKey(key: string) {
    forall k :: 0 <= k < |key| ==> key[k] == '_' || 'a' <= key[k] <= 'z'
  }

  /**
   * Character `k` of the label of a key: an underscore becomes a space, the
   * first letter of each word is capitalised and the other letters are kept.
   */
  function LabelChar(key: string, k: nat): char
    requires k < |key|
  {
    if key[k] == '_' then ' '
    else if k == 0 || key[k - 1] == '_' then Upper(key[k])
    else key[k]
  }

  lemma LabelAt(key: string, k: nat)
    requires IsKey(key) && k < |key|
    ensures |Label(key)| == |key|
    ensures Label(key)[k] == LabelChar(key, k)
  {
    var spaced := ReplaceUnderscore(key);
    TitleFromAt(spaced, false, k);
  }

  /** `shown` is the label of `key` when it agrees with `LabelChar` everywhere. */
  lemma LabelIs(key: string, shown: string)
    requires IsKey(key) && |shown| == |key|
    requires forall k :: 0 <= k < |key| ==> shown[k] == LabelChar(key, k)
    ensures Label(key) == shown
  {
    forall k | 0 <= k < |key| ensures Label(key)[k] == shown[k] {
      LabelAt(key, k);
    }
  }

  /** `"created_at"` is shown as `"Created At"`. */
  lemma CreatedAtLabel()
    ensures Label("created_at") == "Created At"
  {
    LabelIs("created_at", "Created At");
  }

  /** Every key of `event_data` is a lower-case key, so `LabelAt` describes its label. */
  lemma AddKeysAreKeys()
    ensures forall k :: 0 <= k < |AddKeys| ==> IsKey(AddKeys[k])
  {
  }

  /** The row each field of `event_data` becomes. */
  function LabelRows(fields: seq<(string, string)>): (t: seq<seq<string>>)
    ensures |t| == |fields|
  {
    seq(|fields|, k requires 0 <= k < |fields| => [Label(fields[k].0), fields[k].1])
  }

  /** The loop that adds one labelled row per field, in order. */
  method FieldRows(fields: seq<(string, string)>) returns (table: seq<seq<string>>)
    ensures table == LabelRows(fields)
    ensures forall k :: 0 <= k < |fields| ==> table[k] == [Label(fields[k].0), fields[k].1]
  {
    table := [];
    for n := 0 to |fields|
      invariant |table| == n
      invariant forall k :: 0 <= k < n ==> table[k] == [Label(fields[k].0), fields[k].1]
    {
      table := table + [[Label(fields[n].0), fields[n].1]];
    }
  }

  /**
   * The `add` command: resolves the two choice options, fills in the
   * defaults and returns the rows of the table it displays.
   */
  method Add(title: string, category: Option<string>, importance: Option<string>,
             description: Option<string>, tags: Option<string>, createdAt: string)
    returns (r: Result<seq<seq<string>>, AddError>)
    ensures var c := Choose("category", category, CategoryChoices, DefaultCategory);
            var i := Choose("importance", importance, ImportanceChoices, DefaultImportance);
            && (r.Ok? <==> c.Ok? && i.Ok?)
            && (r.Ok? ==> r.value == LabelRows(EventData(title, c.value, i.value, description, tags, createdAt)))
            && (r.Err? ==> (c.Err? && r.error == c.error) || (i.Err? && r.error == i.error))
  {
    var c := Choose("category", category, CategoryChoices, DefaultCategory);
    if c.Err? {
      return Err(c.error);
    }
    var i := Choose("importance", importance, ImportanceChoices, DefaultImportance);
    if i.Err? {
      return Err(i.error);
    }
    var fields := EventData(title, c.value, i.value, description, tags, createdAt);
    var table := FieldRows(fields);
    r := Ok(table);
  }
}
