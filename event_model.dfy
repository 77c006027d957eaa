/**
 * The Event record of the archive (backend/models/event.py): its two closed
 * enumerations, the defaulting of importance on insert, and the dictionary
 * form produced by `to_dict`, including the decoding of the comma-delimited
 * tag column.
 */
module EventModel {
  import opened Wrappers

  // ---------------------------------------------------------------------
  // Enumerations
  // ---------------------------------------------------------------------

  /** Event categories; each has a lowercase string value. */
  datatype EventCategory = Virtue | Trial | Victory | Legendary | Divine | Mortal

  /** Importance levels; each has a lowercase string value. */
  datatype EventImportance = Low | Medium | High | Critical | Legendary

  const AllCategories: seq<EventCategory> :=
    [Virtue, Trial, Victory, EventCategory.Legendary, Divine, Mortal]

  const AllImportances: seq<EventImportance> :=
    [Low, Medium, High, Critical, EventImportance.Legendary]

  /** Every character is an ASCII lower-case letter. */
  predicate IsLowerWord(s: string) {
    forall i :: 0 <= i < |s| ==> 'a' <= s[i] <= 'z'
  }

  /** The enum member's `.value`. */
  function CategoryValue(c: EventCategory): (s: string)
    ensures s != [] && IsLowerWord(s)
  {
    match c
    case Virtue => "virtue"
    case Trial => "trial"
    case Victory => "victory"
    case Legendary => "legendary"
    case Divine => "divine"
    case Mortal => "mortal"
  }

  /** Lookup by value, `EventCategory(s)`; an unknown value is refused. */
  function CategoryFromValue(s: string): (r: Option<EventCategory>)
    ensures r.Some? ==> CategoryValue(r.value) == s
  {
    if s == "virtue" then Some(Virtue)
    else if s == "trial" then Some(Trial)
    else if s == "victory" then Some(Victory)
    else if s == "legendary" then Some(EventCategory.Legendary)
    else if s == "divine" then Some(Divine)
    else if s == "mortal" then Some(Mortal)
    else None
  }

  function ImportanceValue(i: EventImportance): (s: string)
    ensures s != [] && IsLowerWord(s)
  {
    match i
    case Low => "low"
    case Medium => "medium"
    case High => "high"
    case Critical => "critical"
    case Legendary => "legendary"
  }

  function ImportanceFromValue(s: string): (r: Option<EventImportance>)
    ensures r.Some? ==> ImportanceValue(r.value) == s
  {
    if s == "low" then Some(Low)
    else if s == "medium" then Some(Medium)
    else if s == "high" then Some(High)
    else if s == "critical" then Some(Critical)
    else if s == "legendary" then Some(EventImportance.Legendary)
    else None
  }

  /** Looking a category up by its own value gives it back. */
  lemma CategoryRoundTrip(c: EventCategory)
    ensures CategoryFromValue(CategoryValue(c)) == Some(c)
  {
    match c
    case Virtue =>
    case Trial =>
    case Victory =>
    case Legendary =>
    case Divine =>
    case Mortal =>
  }

  lemma ImportanceRoundTrip(i: EventImportance)
    ensures ImportanceFromValue(ImportanceValue(i)) == Some(i)
  {
    match i
    case Low =>
    case Medium =>
    case High =>
    case Critical =>
    case Legendary =>
  }

  /** Exactly six categories, with these values, and distinct members have distinct values. */
  lemma CategoryTaxonomy()
    ensures |AllCategories| == 6
    ensures forall c: EventCategory :: c in AllCategories
    ensures seq(6, k requires 0 <= k < 6 => CategoryValue(AllCategories[k]))
         == ["virtue", "trial", "victory", "legendary", "divine", "mortal"]
    ensures forall a: EventCategory, b: EventCategory ::
              CategoryValue(a) == CategoryValue(b) ==> a == b
  {
    forall c: EventCategory ensures c in AllCategories {
      match c
      case Virtue => assert AllCategories[0] == c;
      case Trial => assert AllCategories[1] == c;
      case Victory => assert AllCategories[2] == c;
      case Legendary => assert AllCategories[3] == c;
      case Divine => assert AllCategories[4] == c;
      case Mortal => assert AllCategories[5] == c;
    }
    forall a: EventCategory, b: EventCategory | CategoryValue(a) == CategoryValue(b)
      ensures a == b
    {
      CategoryRoundTrip(a);
      CategoryRoundTrip(b);
    }
  }

  /** Exactly five importance levels, with these values, and the value map is injective. */
  lemma ImportanceTaxonomy()
    ensures |AllImportances| == 5
    ensures forall i: EventImportance :: i in AllImportances
    ensures seq(5, k requires 0 <= k < 5 => ImportanceValue(AllImportances[k]))
         == ["low", "medium", "high", "critical", "legendary"]
    ensures forall a: EventImportance, b: EventImportance ::
              ImportanceValue(a) == ImportanceValue(b) ==> a == b
  {
    forall i: EventImportance ensures i in AllImportances {
      match i
      case Low => assert AllImportances[0] == i;
      case Medium => assert AllImportances[1] == i;
      case High => assert AllImportances[2] == i;
      case Critical => assert AllImportances[3] == i;
      case Legendary => assert AllImportances[4] == i;
    }
    forall a: EventImportance, b: EventImportance | ImportanceValue(a) == ImportanceValue(b)
      ensures a == b
    {
      ImportanceRoundTrip(a);
      ImportanceRoundTrip(b);
    }
  }

  /** A string is a category value exactly when lookup by value accepts it. */
  lemma CategoryValueIff(s: string)
    ensures CategoryFromValue(s).Some? <==> exists c: EventCategory :: CategoryValue(c) == s
  {
    if c: EventCategory :| CategoryValue(c) == s {
      CategoryRoundTrip(c);
    }
  }

  lemma ImportanceValueIff(s: string)
    ensures ImportanceFromValue(s).Some? <==> exists i: EventImportance :: ImportanceValue(i) == s
  {
    if i: EventImportance :| ImportanceValue(i) == s {
      ImportanceRoundTrip(i);
    }
  }

  // ---------------------------------------------------------------------
  // The comma-delimited tag column
  // ---------------------------------------------------------------------

  /** Number of ',' characters in `s`. */
  function CommaCount(s: string): nat {
    if s == [] then 0 else (if s[0] == ',' then 1 else 0) + CommaCount(s[1..])
  }

  /** `",".join(parts)`. */
  function JoinComma(parts: seq<string>): string {
    if parts == [] then ""
    else if |parts| == 1 then parts[0]
    else parts[0] + "," + JoinComma(parts[1..])
  }

  /** No part contains the delimiter. */
  predicate CommaFree(parts: seq<string>) {
    forall k :: 0 <= k < |parts| ==> ',' !in parts[k]
  }

  /**
   * `s.split(",")`: the pieces between commas, left to right. It always has
   * one more piece than `s` has commas, so `"".split(",")` is `[""]`.
   */
  function SplitComma(s: string): (parts: seq<string>)
    ensures |parts| == CommaCount(s) + 1
    ensures CommaFree(parts)
    ensures JoinComma(parts) == s
  {
    if s == [] then [""]
    else
      var rest := SplitComma(s[1..]);
      if s[0] == ',' then
        assert s == "," + s[1..];
        [""] + rest
      else
        var parts := [[s[0]] + rest[0]] + rest[1..];
        assert parts[1..] == rest[1..];
        parts
  }

  /** A comma-free string splits to itself alone. */
  lemma {:induction false} SplitCommaFree(a: string)
    requires ',' !in a
    ensures SplitComma(a) == [a]
  {
    if a != [] {
      SplitCommaFree(a[1..]);
    }
  }

  /** Splitting at the first comma peels off the comma-free piece before it. */
  lemma {:induction false} SplitAtComma(a: string, b: string)
    requires ',' !in a
    ensures SplitComma(a + "," + b) == [a] + SplitComma(b)
  {
    var s := a + "," + b;
    if a == [] {
      assert s[1..] == b;
    } else {
      assert s[1..] == a[1..] + "," + b;
      SplitAtComma(a[1..], b);
      assert [a[0]] + a[1..] == a;
    }
  }

  /** Splitting a join of comma-free parts gives the parts back. */
  lemma {:induction false} SplitJoin(parts: seq<string>)
    requires |parts| >= 1 && CommaFree(parts)
    ensures SplitComma(JoinComma(parts)) == parts
  {
    if |parts| == 1 {
      SplitCommaFree(parts[0]);
    } else {
      assert ',' !in parts[0];
      SplitAtComma(parts[0], JoinComma(parts[1..]));
      SplitJoin(parts[1..]);
    }
  }

  /** A join is empty exactly for no parts or a single empty part. */
  lemma JoinEmptyIff(parts: seq<string>)
    ensures JoinComma(parts) == "" <==> parts == [] || parts == [""]
  {
    if |parts| >= 2 {
      assert |JoinComma(parts)| >= 1;
    }
  }

  /** Decoding of the tag column in `to_dict`: `tags.split(",") if tags else []`. */
  function DecodeTags(tags: Option<string>): (r: seq<string>)
    ensures !Truthy(tags) ==> r == []
    ensures Truthy(tags) ==> |r| == CommaCount(tags.value) + 1 && JoinComma(r) == tags.value
    ensures CommaFree(r)
  {
    if Truthy(tags) then SplitComma(tags.value) else []
  }

  /** Joining what was decoded from a stored string gives that string back. */
  lemma DecodeThenJoin(s: string)
    ensures JoinComma(DecodeTags(Some(s))) == s
  {
  }

  /**
   * Storing comma-free tags as their join and decoding gives the tags back,
   * except for the lists whose join is empty: `[]` and `[""]` both decode to `[]`.
   */
  lemma TagsRoundTrip(tags: seq<string>)
    requires CommaFree(tags)
    ensures tags != [""] ==> DecodeTags(Some(JoinComma(tags))) == tags
    ensures DecodeTags(Some(JoinComma([""]))) == []
  {
    JoinEmptyIff(tags);
    if tags != [] && tags != [""] {
      SplitJoin(tags);
    }
  }

  // ---------------------------------------------------------------------
  // The record and its dictionary form
  // ---------------------------------------------------------------------

  /** A persisted event row; timestamps are not part of this model. */
  datatype Event = Event(
    id: Option<int>,
    title: string,
    description: Option<string>,
    category: EventCategory,
    importance: EventImportance,
    tags: Option<string>,
    location: Option<string>,
    relatedUrl: Option<string>)

  /**
   * The row as inserted. An importance that was not given takes the column
   * default MEDIUM; an id that was not given takes the primary key the
   * database assigns, which is passed in as `assignedKey`.
   */
  function Insert(id: Option<int>, assignedKey: int, title: string, description: Option<string>,
                  category: EventCategory, importance: Option<EventImportance>,
                  tags: Option<string>, location: Option<string>,
                  relatedUrl: Option<string>): (e: Event)
    ensures importance == None ==> e.importance == Medium
    ensures importance.Some? ==> e.importance == importance.value
    ensures e.id.Some?
    ensures id == None ==> e.id == Some(assignedKey)
    ensures id.Some? ==> e.id == id
    ensures e.title == title && e.description == description
    ensures e.category == category && e.tags == tags
    ensures e.location == location && e.relatedUrl == relatedUrl
  {
    Event(match id case Some(k) => Some(k) case None => Some(assignedKey),
          title, description, category,
          match importance case Some(i) => i case None => Medium,
          tags, location, relatedUrl)
  }

  /** The dictionary `to_dict` returns, without its three timestamp entries. */
  datatype EventDict = EventDict(
    id: Option<int>,
    title: string,
    description: Option<string>,
    category: string,
    importance: string,
    tags: seq<string>,
    location: Option<string>,
    relatedUrl: Option<string>)

  /**
   * `to_dict`: enums become their lowercase values, which identify the
   * members again; the tag text becomes a list; the rest is copied.
   */
  function ToDict(e: Event): (d: EventDict)
    ensures CategoryFromValue(d.category) == Some(e.category) && IsLowerWord(d.category)
    ensures ImportanceFromValue(d.importance) == Some(e.importance) && IsLowerWord(d.importance)
    ensures !Truthy(e.tags) ==> d.tags == []
    ensures Truthy(e.tags) ==> JoinComma(d.tags) == e.tags.value
                               && |d.tags| == CommaCount(e.tags.value) + 1
    ensures CommaFree(d.tags)
    ensures d.id == e.id && d.title == e.title && d.description == e.description
    ensures d.location == e.location && d.relatedUrl == e.relatedUrl
  {
    CategoryRoundTrip(e.category);
    ImportanceRoundTrip(e.importance);
    EventDict(e.id, e.title, e.description,
              CategoryValue(e.category), ImportanceValue(e.importance),
              DecodeTags(e.tags), e.location, e.relatedUrl)
  }

  /** Two events whose dictionaries agree agree on category and importance. */
  lemma ToDictEnumsInjective(e1: Event, e2: Event)
    requires ToDict(e1).category == ToDict(e2).category
    requires ToDict(e1).importance == ToDict(e2).importance
    ensures e1.category == e2.category && e1.importance == e2.importance
  {
  }
}
