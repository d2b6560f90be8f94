/** Five-field cron patterns, the matcher they compile to, and the matchers built without a pattern. */
module CronPattern {
  import opened Text
  import opened CronFields
  import opened Calendar

  datatype Schedule = Schedule(minutes: seq<int>, hours: seq<int>, dates: seq<int>, months: seq<int>, dows: seq<int>)

  datatype PatternError = BadFormat | BadField(field: Field, error: FieldError)

  datatype PatternResult = Compiled(schedule: Schedule) | Invalid(error: PatternError) | Hangs

  /** Five groups of the pattern characters, separated by white space and nothing around them. */
  predicate MatchesTimeRegex(pattern: string) {
    && pattern != "" && !IsSpace(pattern[0]) && !IsSpace(pattern[|pattern| - 1])
    && (forall i | 0 <= i < |pattern| ::
      IsDigit(pattern[i]) || pattern[i] in "*/,-" || pattern[i] in " \t\n\r" || pattern[i] as int == 0x0C)
    && |Text.Fields(pattern)| == 5
  }

  /** The regular expression, group by group. */
  ghost predicate IsTimeText(pattern: string, words: seq<string>, gaps: seq<string>) {
    && |words| == 5 && |gaps| == 4 && pattern == Spaced(words, gaps)
    && (forall i | 0 <= i < 5 :: words[i] != "" && forall c | c in words[i] :: '0' <= c <= '9' || c in "*/,-")
    && (forall i | 0 <= i < 4 :: gaps[i] != "" && forall c | c in gaps[i] :: c in " \t\n\r" || c as int == 0x0C)
  }

  lemma TimeTextMatches(pattern: string, words: seq<string>, gaps: seq<string>)
    requires IsTimeText(pattern, words, gaps)
    ensures MatchesTimeRegex(pattern) && Text.Fields(pattern) == words
  {
    forall i | 0 <= i < 5 ensures IsWord(words[i]) { assert forall k | 0 <= k < |words[i]| :: words[i][k] in words[i]; }
    forall i | 0 <= i < 4 ensures IsGap(gaps[i]) { assert forall k | 0 <= k < |gaps[i]| :: gaps[i][k] in gaps[i]; }
    FieldsOfSpaced(words, gaps);
    SpacedEnds(words, gaps);
    forall i | 0 <= i < |pattern|
      ensures IsDigit(pattern[i]) || pattern[i] in "*/,-" || pattern[i] in " \t\n\r" || pattern[i] as int == 0x0C
    {
      CharactersOfSpaced(words, gaps, pattern[i]);
    }
  }

  /** A pattern has the right form exactly if it is five groups with gaps between them; the groups are its fields. */
  lemma RegexByGroups(pattern: string)
    ensures MatchesTimeRegex(pattern) <==> exists words, gaps :: IsTimeText(pattern, words, gaps)
    ensures forall words, gaps | IsTimeText(pattern, words, gaps) :: Text.Fields(pattern) == words
  {
    if MatchesTimeRegex(pattern) {
      var words := Text.Fields(pattern);
      var gaps := SpacedFields(pattern);
      MatchIsTimeText(pattern, words, gaps);
    }
    forall words, gaps | IsTimeText(pattern, words, gaps)
      ensures MatchesTimeRegex(pattern) && Text.Fields(pattern) == words
    {
      TimeTextMatches(pattern, words, gaps);
    }
  }

  lemma MatchIsTimeText(pattern: string, words: seq<string>, gaps: seq<string>)
    requires MatchesTimeRegex(pattern) && words == Text.Fields(pattern)
    requires |words| == |gaps| + 1 && pattern == Spaced(words, gaps)
    requires (forall i | 0 <= i < |words| :: IsWord(words[i])) && forall i | 0 <= i < |gaps| :: IsGap(gaps[i])
    ensures IsTimeText(pattern, words, gaps)
  {
    forall i, c | 0 <= i < 5 && c in words[i] ensures IsDigit(c) || c in "*/,-" {
      CharactersOfSpaced(words, gaps, c);
    }
    forall i, c | 0 <= i < 4 && c in gaps[i] ensures c in " \t\n\r" || c as int == 0x0C {
      CharactersOfSpaced(words, gaps, c);
    }
  }

  function Fault(field: Field, r: FieldResult): PatternResult
    requires !r.Accepted?
  {
    match r
    case Rejected(error) => Invalid(BadField(field, error))
    case NeverReturns => Hangs
  }

  /** The fields are parsed in order, and the first that fails decides. */
  function ParseFields(fields: seq<string>): PatternResult
    requires |fields| == 5
  {
    var minutes := FieldValues(Minute, fields[0]);
    if !minutes.Accepted? then Fault(Minute, minutes) else
    var hours := FieldValues(Hour, fields[1]);
    if !hours.Accepted? then Fault(Hour, hours) else
    var dates := FieldValues(DayOfMonth, fields[2]);
    if !dates.Accepted? then Fault(DayOfMonth, dates) else
    var months := FieldValues(Month, fields[3]);
    if !months.Accepted? then Fault(Month, months) else
    var dows := FieldValues(DayOfWeek, fields[4]);
    if !dows.Accepted? then Fault(DayOfWeek, dows) else
    Compiled(Schedule(minutes.values, hours.values, dates.values, months.values, dows.values))
  }

  function ParsePattern(pattern: string): PatternResult {
    if MatchesTimeRegex(pattern) then ParseFields(Text.Fields(pattern)) else Invalid(BadFormat)
  }

  /** The compiled matcher: whether date and weekday exclude anything is told from the list lengths. */
  predicate ArrayMatcher(s: Schedule, d: TimestampDigest) {
    if d.minute !in s.minutes then false
    else if d.hour !in s.hours then false
    else if d.month !in s.months then false
    else
      var dateIsExclusionary := |s.dates| != 31;
      var dowIsExclusionary := |s.dows| != 7;
      if dateIsExclusionary && dowIsExclusionary then d.date in s.dates || d.dow in s.dows
      else if dateIsExclusionary then d.date in s.dates
      else if dowIsExclusionary then d.dow in s.dows
      else true
  }

  /** The fallback on the item's arrays, kept for items without a match function. */
  predicate MatchesLegacy(s: Schedule, d: TimestampDigest) {
    if d.minute !in s.minutes || d.hour !in s.hours || d.month !in s.months then false
    else
      match (|s.dates| != 31, |s.dows| != 7)
      case (true, true) => d.date in s.dates || d.dow in s.dows
      case (true, false) => d.date in s.dates
      case (false, true) => d.dow in s.dows
      case (false, false) => true
  }

  // The direct interpretation of the text

  /** The values a field stands for. */
  function Meaning(field: Field, text: string): int -> bool {
    v => AnyCovers(field, Parts(text), v)
  }

  /** Some value of the range is excluded. */
  predicate Restricts(field: Field, means: int -> bool) {
    exists v | field.Min() <= v <= field.Max() :: !means(v)
  }

  predicate SelectsSome(field: Field, means: int -> bool) {
    exists v | field.Min() <= v <= field.Max() :: means(v)
  }

  datatype Meanings = Meanings(minute: int -> bool, hour: int -> bool, date: int -> bool, month: int -> bool,
    dow: int -> bool)

  function MeaningsOf(fields: seq<string>): Meanings
    requires |fields| == 5
  {
    Meanings(Meaning(Minute, fields[0]), Meaning(Hour, fields[1]), Meaning(DayOfMonth, fields[2]),
             Meaning(Month, fields[3]), Meaning(DayOfWeek, fields[4]))
  }

  /** Every field must match; but when date and weekday are both restricted, either of the two is enough. */
  predicate Interpret(m: Meanings, d: TimestampDigest) {
    && m.minute(d.minute) && m.hour(d.hour) && m.month(d.month)
    && if Restricts(DayOfMonth, m.date) && Restricts(DayOfWeek, m.dow)
       then m.date(d.date) || m.dow(d.dow)
       else m.date(d.date) && m.dow(d.dow)
  }

  // The length test

  /** How many values of its range a field covers. */
  function Coverage(field: Field, text: string): nat {
    |Covered(field, Parts(text))|
  }

  /** The list `values` stands for `means`: on the range it has the same members, and `strays` members besides. */
  ghost predicate Lists(field: Field, values: seq<int>, means: int -> bool, strays: nat) {
    && (forall v | field.Has(v) :: v in values <==> means(v))
    && |values| >= strays
    && (|values| - strays == field.Max() - field.Min() + 1 <==> !Restricts(field, means))
    && (|values| > strays ==> SelectsSome(field, means))
  }

  lemma CoverageTells(field: Field, parts: seq<string>, means: int -> bool)
    requires forall v :: means(v) == AnyCovers(field, parts, v)
    ensures |Covered(field, parts)| == field.Max() - field.Min() + 1 <==> !Restricts(field, means)
    ensures |Covered(field, parts)| > 0 ==> SelectsSome(field, means)
  {
    CoveredLength(field, parts);
    if Covered(field, parts) != [] {
      assert Covered(field, parts)[0] in Covered(field, parts);
    }
  }

  lemma FieldLength(field: Field, text: string)
    requires FieldValues(field, text).Accepted?
    ensures |FieldValues(field, text).values|
      == Coverage(field, text) + if AnyOverflows(field, Parts(text)) then 2 else 0
  {}

  lemma FieldMembers(field: Field, text: string, v: int)
    requires FieldValues(field, text).Accepted? && field.Has(v)
    ensures v in FieldValues(field, text).values <==> Meaning(field, text)(v)
  {
    ValuesAreTheUnion(field, text, v);
  }

  lemma FieldLists(field: Field, text: string, values: seq<int>, means: int -> bool, strays: nat)
    requires FieldValues(field, text) == Accepted(values) && means == Meaning(field, text)
    requires strays == if AnyOverflows(field, Parts(text)) then 2 else 0
    ensures Lists(field, values, means, strays) && |values| == Coverage(field, text) + strays
  {
    CoverageTells(field, Parts(text), means);
    FieldLength(field, text);
    forall v | field.Has(v) ensures v in values <==> means(v) { FieldMembers(field, text, v); }
  }

  /**
   * The list is full exactly when nothing is excluded: the test the matcher makes, for a field that does not
   * overflow.
   */
  lemma ExclusionTest(field: Field, text: string)
    requires FieldValues(field, text).Accepted? && !AnyOverflows(field, Parts(text))
    ensures |FieldValues(field, text).values| != field.Max() - field.Min() + 1 <==>
      Restricts(field, Meaning(field, text))
  {
    FieldLists(field, text, FieldValues(field, text).values, Meaning(field, text), 0);
  }

  /** The ranges of the five fields are those of the digest. */
  lemma FieldsRangeOverDigests(d: TimestampDigest)
    ensures ValidDigest(d) <==>
      Minute.Has(d.minute) && Hour.Has(d.hour) && DayOfMonth.Has(d.date) && Month.Has(d.month) && DayOfWeek.Has(d.dow)
  {}

  // Compiling preserves meaning

  /** The date list has stray values, and they lead the length test astray. */
  predicate DaysSkewed(dates: nat, strays: nat, m: Meanings) {
    strays == 2 && (dates == 31 || (dates == 33 && Restricts(DayOfWeek, m.dow)))
  }

  predicate CanMatch(m: Meanings) {
    SelectsSome(Minute, m.minute) && SelectsSome(Hour, m.hour) && SelectsSome(Month, m.month)
  }

  ghost predicate Stands(s: Schedule, m: Meanings, strays: nat) {
    && Lists(Minute, s.minutes, m.minute, 0)
    && Lists(Hour, s.hours, m.hour, 0)
    && Lists(DayOfMonth, s.dates, m.date, strays)
    && (forall v | Month.Has(v) :: v in s.months <==> m.month(v))
    && Lists(DayOfWeek, s.dows, m.dow, 0)
  }

  lemma UnskewedAgrees(s: Schedule, m: Meanings, strays: nat, d: TimestampDigest)
    requires Stands(s, m, strays) && (strays == 0 || strays == 2) && !DaysSkewed(|s.dates|, strays, m) && ValidDigest(d)
    ensures ArrayMatcher(s, d) == Interpret(m, d)
  {
    assert Minute.Has(d.minute) && Hour.Has(d.hour) && DayOfMonth.Has(d.date) && Month.Has(d.month)
      && DayOfWeek.Has(d.dow);
  }

  lemma SkewedDiffers(s: Schedule, m: Meanings) returns (d: TimestampDigest)
    requires Stands(s, m, 2) && DaysSkewed(|s.dates|, 2, m) && CanMatch(m)
    ensures ValidDigest(d) && ArrayMatcher(s, d) != Interpret(m, d)
  {
    var minute :| 0 <= minute <= 59 && m.minute(minute);
    var hour :| 0 <= hour <= 23 && m.hour(hour);
    var month :| 1 <= month <= 12 && m.month(month);
    assert Minute.Has(minute) && Hour.Has(hour) && Month.Has(month);
    if Restricts(DayOfWeek, m.dow) {
      var dow :| 0 <= dow <= 6 && !m.dow(dow);
      var date :| 1 <= date <= 31 && m.date(date);
      assert DayOfMonth.Has(date) && DayOfWeek.Has(dow);
      d := TimestampDigest(minute, hour, date, month, dow);
    } else {
      var date :| 1 <= date <= 31 && !m.date(date);
      assert DayOfMonth.Has(date);
      d := TimestampDigest(minute, hour, date, month, 0);
      assert DayOfWeek.Has(0);
    }
  }

  lemma LegacyAgrees(s: Schedule, d: TimestampDigest)
    ensures MatchesLegacy(s, d) == ArrayMatcher(s, d)
  {}

  /** Of the five fields only a date field can skew its matcher. */
  predicate Skewed(fields: seq<string>)
    requires |fields| == 5
  {
    && AnyOverflows(DayOfMonth, Parts(fields[2]))
    && (|| Coverage(DayOfMonth, fields[2]) == 29
        || (Coverage(DayOfMonth, fields[2]) == 31 && Restricts(DayOfWeek, Meaning(DayOfWeek, fields[4]))))
    && CanMatch(MeaningsOf(fields))
  }

  lemma CompiledFields(fields: seq<string>, s: Schedule)
    requires |fields| == 5 && ParseFields(fields) == Compiled(s)
    ensures FieldValues(Minute, fields[0]) == Accepted(s.minutes) && FieldValues(Hour, fields[1]) == Accepted(s.hours)
    ensures FieldValues(DayOfMonth, fields[2]) == Accepted(s.dates)
    ensures FieldValues(Month, fields[3]) == Accepted(s.months) && FieldValues(DayOfWeek, fields[4]) == Accepted(s.dows)
  {}

  lemma NoOverflowFromZero(field: Field, parts: seq<string>)
    requires field.Min() == 0
    ensures !AnyOverflows(field, parts)
  {}

  lemma ZeroFieldLists(field: Field, text: string, values: seq<int>, means: int -> bool)
    requires field.Min() == 0 && FieldValues(field, text) == Accepted(values) && means == Meaning(field, text)
    ensures Lists(field, values, means, 0)
  {
    NoOverflowFromZero(field, Parts(text));
    FieldLists(field, text, values, means, 0);
  }

  lemma FieldAgrees(field: Field, text: string, values: seq<int>, means: int -> bool)
    requires FieldValues(field, text) == Accepted(values) && means == Meaning(field, text)
    ensures forall v | field.Has(v) :: v in values <==> means(v)
  {
    forall v | field.Has(v) ensures v in values <==> means(v) { FieldMembers(field, text, v); }
  }

  lemma CompiledStands(fields: seq<string>, s: Schedule, m: Meanings, strays: nat)
    requires |fields| == 5 && ParseFields(fields) == Compiled(s) && m == MeaningsOf(fields)
    requires strays == if AnyOverflows(DayOfMonth, Parts(fields[2])) then 2 else 0
    ensures Stands(s, m, strays) && |s.dates| == Coverage(DayOfMonth, fields[2]) + strays
  {
    CompiledFields(fields, s);
    ZeroFieldLists(Minute, fields[0], s.minutes, m.minute);
    ZeroFieldLists(Hour, fields[1], s.hours, m.hour);
    FieldLists(DayOfMonth, fields[2], s.dates, m.date, strays);
    FieldAgrees(Month, fields[3], s.months, m.month);
    ZeroFieldLists(DayOfWeek, fields[4], s.dows, m.dow);
  }

  lemma Decide(s: Schedule, m: Meanings, strays: nat)
    requires Stands(s, m, strays) && (strays == 0 || strays == 2)
    ensures (forall d | ValidDigest(d) :: ArrayMatcher(s, d) == Interpret(m, d)) <==>
      !(DaysSkewed(|s.dates|, strays, m) && CanMatch(m))
  {
    if !DaysSkewed(|s.dates|, strays, m) {
      forall d | ValidDigest(d) ensures ArrayMatcher(s, d) == Interpret(m, d) { UnskewedAgrees(s, m, strays, d); }
    } else if CanMatch(m) {
      var d := SkewedDiffers(s, m);
    } else {
      forall d | ValidDigest(d) ensures !ArrayMatcher(s, d) && !Interpret(m, d) {
        assert Minute.Has(d.minute) && Hour.Has(d.hour) && Month.Has(d.month);
      }
    }
  }

  lemma SkewedIsDaysSkewed(fields: seq<string>, dates: nat, m: Meanings, strays: nat)
    requires |fields| == 5 && m == MeaningsOf(fields)
    requires strays == if AnyOverflows(DayOfMonth, Parts(fields[2])) then 2 else 0
    requires dates == Coverage(DayOfMonth, fields[2]) + strays
    ensures Skewed(fields) <==> DaysSkewed(dates, strays, m) && CanMatch(m)
  {}

  lemma FieldsCompile(fields: seq<string>, s: Schedule, m: Meanings)
    requires |fields| == 5 && ParseFields(fields) == Compiled(s) && m == MeaningsOf(fields)
    ensures (forall d | ValidDigest(d) :: ArrayMatcher(s, d) == Interpret(m, d)) <==> !Skewed(fields)
  {
    var strays := if AnyOverflows(DayOfMonth, Parts(fields[2])) then 2 else 0;
    assert Stands(s, m, strays) && |s.dates| == Coverage(DayOfMonth, fields[2]) + strays by {
      CompiledStands(fields, s, m, strays);
    }
    SkewedIsDaysSkewed(fields, |s.dates|, m, strays);
    Decide(s, m, strays);
  }

  /**
   * On every valid digest the compiled matcher, and the fallback on the arrays, decide as the text says: for all
   * accepted patterns but those whose date field steps by the largest integer and so fools the length test.
   */
  lemma CompilePreservesMeaning(pattern: string, s: Schedule)
    requires ParsePattern(pattern) == Compiled(s)
    ensures (forall d | ValidDigest(d) :: ArrayMatcher(s, d) == Interpret(MeaningsOf(Text.Fields(pattern)), d)) <==>
      !Skewed(Text.Fields(pattern))
    ensures forall d :: MatchesLegacy(s, d) == ArrayMatcher(s, d)
  {
    FieldsCompile(Text.Fields(pattern), s, MeaningsOf(Text.Fields(pattern)));
    forall d ensures MatchesLegacy(s, d) == ArrayMatcher(s, d) { LegacyAgrees(s, d); }
  }
}
