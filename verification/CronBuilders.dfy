/** Patterns written out from terms, and the matcher builders as patterns. */
module CronBuilders {
  import opened Text
  import opened CronFields
  import opened CronPattern
  import opened Calendar

  type Matcher = TimestampDigest -> bool

  function CreateEveryMinuteMatcher(): Matcher {
    d => true
  }

  function CreateHourlyMatcher(minute: int): Matcher {
    if minute < 0 || minute > 59 then d => false
    else (d: TimestampDigest) => d.minute == minute
  }

  function CreateDailyMatcher(hour: int, minute: int): Matcher {
    if hour < 0 || hour > 23 || minute < 0 || minute > 59 then d => false
    else (d: TimestampDigest) => d.hour == hour && d.minute == minute
  }

  /** `weekday` is not checked: outside 0 to 6 the matcher never fires. */
  function CreateWeeklyMatcher(weekday: int, hour: int, minute: int): Matcher {
    if hour < 0 || hour > 23 || minute < 0 || minute > 59 then d => false
    else (d: TimestampDigest) => d.dow == weekday && d.hour == hour && d.minute == minute
  }

  function CreateMonthlyMatcher(day: int, hour: int, minute: int): Matcher {
    if day < 1 || day > 31 || hour < 0 || hour > 23 || minute < 0 || minute > 59 then d => false
    else (d: TimestampDigest) => d.date == day && d.hour == hour && d.minute == minute
  }

  function CreateBusinessHoursMatcher(minute: int): Matcher {
    if minute < 0 || minute > 59 then d => false
    else (d: TimestampDigest) => 1 <= d.dow <= 5 && 9 <= d.hour <= 17 && d.minute == minute
  }

  // Writing a pattern out

  datatype Terms = Terms(minute: seq<Term>, hour: seq<Term>, date: seq<Term>, month: seq<Term>, dow: seq<Term>) {
    predicate Complete() {
      minute != [] && hour != [] && date != [] && month != [] && dow != []
    }
  }

  function Texts(t: Terms): seq<string>
    requires t.Complete()
  {
    [RenderField(t.minute), RenderField(t.hour), RenderField(t.date), RenderField(t.month), RenderField(t.dow)]
  }

  function RenderPattern(t: Terms): string
    requires t.Complete()
  {
    Join(Texts(t), ' ')
  }

  predicate PatternWord(s: string) {
    s != "" && forall i | 0 <= i < |s| :: IsDigit(s[i]) || s[i] in "*/,-"
  }

  lemma PatternWordIsWord(s: string)
    requires PatternWord(s)
    ensures IsWord(s)
  {
    forall i | 0 <= i < |s| ensures !IsSpace(s[i]) { assert IsDigit(s[i]) || s[i] in "*/,-"; }
  }

  lemma {:induction false} FieldsOfJoin(words: seq<string>)
    requires words != [] && forall i | 0 <= i < |words| :: PatternWord(words[i])
    ensures Text.Fields(Join(words, ' ')) == words
    decreases |words|
  {
    PatternWordIsWord(words[0]);
    if |words| == 1 {
      FieldsFirst(words[0], "");
    } else {
      FieldsFirst(words[0], Join(words[1..], ' '));
      FieldsOfJoin(words[1..]);
    }
  }

  lemma {:induction false} CharactersOfJoin(words: seq<string>)
    requires words != [] && forall i | 0 <= i < |words| :: PatternWord(words[i])
    ensures var s := Join(words, ' ');
      && s != "" && !IsSpace(s[0]) && !IsSpace(s[|s| - 1])
      && forall i | 0 <= i < |s| :: s[i] == ' ' || IsDigit(s[i]) || s[i] in "*/,-"
    decreases |words|
  {
    PatternWordIsWord(words[0]);
    if |words| > 1 {
      CharactersOfJoin(words[1..]);
    }
  }

  lemma PatternSplits(words: seq<string>)
    requires |words| == 5 && forall i | 0 <= i < |words| :: PatternWord(words[i])
    ensures ParsePattern(Join(words, ' ')) == ParseFields(words) && Text.Fields(Join(words, ' ')) == words
  {
    FieldsOfJoin(words);
    CharactersOfJoin(words);
  }

  ghost predicate AllWellFormed(field: Field, terms: seq<Term>) {
    forall i | 0 <= i < |terms| :: WellFormed(field, terms[i])
  }

  ghost predicate TermsWellFormed(t: Terms) {
    && AllWellFormed(Minute, t.minute) && AllWellFormed(Hour, t.hour) && AllWellFormed(DayOfMonth, t.date)
    && AllWellFormed(Month, t.month) && AllWellFormed(DayOfWeek, t.dow)
  }

  lemma RenderedFieldsCompile(t: Terms)
    requires t.Complete()
    ensures ParseFields(Texts(t)).Compiled? <==> TermsWellFormed(t)
  {
    ParsesRendering(Minute, t.minute);
    ParsesRendering(Hour, t.hour);
    ParsesRendering(DayOfMonth, t.date);
    ParsesRendering(Month, t.month);
    ParsesRendering(DayOfWeek, t.dow);
  }

  lemma RenderedPattern(t: Terms)
    requires t.Complete()
    ensures ParsePattern(RenderPattern(t)) == ParseFields(Texts(t)) && Text.Fields(RenderPattern(t)) == Texts(t)
    ensures ParsePattern(RenderPattern(t)).Compiled? <==> TermsWellFormed(t)
  {
    RenderedCharacters(t.minute);
    RenderedCharacters(t.hour);
    RenderedCharacters(t.date);
    RenderedCharacters(t.month);
    RenderedCharacters(t.dow);
    PatternSplits(Texts(t));
    RenderedFieldsCompile(t);
  }

  function TermsMean(t: Terms): Meanings {
    Meanings(
      v => AnyTermCovers(Minute, t.minute, v),
      v => AnyTermCovers(Hour, t.hour, v),
      v => AnyTermCovers(DayOfMonth, t.date, v),
      v => AnyTermCovers(Month, t.month, v),
      v => AnyTermCovers(DayOfWeek, t.dow, v))
  }

  ghost predicate SameMeaning(a: int -> bool, b: int -> bool) {
    forall v :: a(v) == b(v)
  }

  lemma SameInterpretation(a: Meanings, b: Meanings, d: TimestampDigest)
    requires SameMeaning(a.minute, b.minute) && SameMeaning(a.hour, b.hour) && SameMeaning(a.date, b.date)
    requires SameMeaning(a.month, b.month) && SameMeaning(a.dow, b.dow)
    ensures Interpret(a, d) == Interpret(b, d)
  {
    assert Restricts(DayOfMonth, a.date) <==> Restricts(DayOfMonth, b.date);
    assert Restricts(DayOfWeek, a.dow) <==> Restricts(DayOfWeek, b.dow);
  }

  lemma RenderedMeaning(field: Field, terms: seq<Term>, means: int -> bool)
    requires terms != [] && forall v :: means(v) == AnyTermCovers(field, terms, v)
    ensures SameMeaning(Meaning(field, RenderField(terms)), means)
  {
    forall v ensures Meaning(field, RenderField(terms))(v) == means(v) { RenderingCovers(field, terms, v); }
  }

  lemma RenderedMeanings(t: Terms, d: TimestampDigest)
    requires t.Complete()
    ensures Interpret(MeaningsOf(Texts(t)), d) == Interpret(TermsMean(t), d)
  {
    var m := TermsMean(t);
    RenderedMeaning(Minute, t.minute, m.minute);
    RenderedMeaning(Hour, t.hour, m.hour);
    RenderedMeaning(DayOfMonth, t.date, m.date);
    RenderedMeaning(Month, t.month, m.month);
    RenderedMeaning(DayOfWeek, t.dow, m.dow);
    SameInterpretation(MeaningsOf(Texts(t)), m, d);
  }

  /**
   * A pattern written out from well-formed terms compiles, and matches as the terms say exactly if it is not
   * skewed.
   */
  lemma PatternOfTerms(t: Terms) returns (s: Schedule)
    requires t.Complete() && TermsWellFormed(t)
    ensures ParsePattern(RenderPattern(t)) == Compiled(s)
    ensures (forall d | ValidDigest(d) :: ArrayMatcher(s, d) == Interpret(TermsMean(t), d)) <==> !Skewed(Texts(t))
  {
    RenderedPattern(t);
    s := ParsePattern(RenderPattern(t)).schedule;
    CompilePreservesMeaning(RenderPattern(t), s);
    forall d ensures Interpret(MeaningsOf(Texts(t)), d) == Interpret(TermsMean(t), d) { RenderedMeanings(t, d); }
  }

  /** No date term steps by the largest integer. */
  lemma PlainTermsAreNotSkewed(t: Terms)
    requires t.Complete() && forall i | 0 <= i < |t.date| :: !Overflows(DayOfMonth, t.date[i])
    ensures !Skewed(Texts(t))
  {
    RenderingOverflows(DayOfMonth, t.date);
  }

  // The builders are patterns

  const ANY: seq<Term> := [Every(1)]

  lemma AnyCoversAll(field: Field, v: int)
    ensures AnyTermCovers(field, ANY, v) <==> field.Has(v)
  {
    if field.Has(v) {
      ReachesMultiples(field.Min(), v, 1);
      assert Covers(field, ANY[0], v);
    }
  }

  lemma OneTerm(field: Field, term: Term, v: int)
    ensures AnyTermCovers(field, [term], v) <==> Covers(field, term, v)
  {
    assert Covers(field, [term][0], v) ==> AnyTermCovers(field, [term], v);
  }

  /** What a pattern of five single terms means, when weekday or date is `*`. */
  lemma SingleTerms(a: Term, b: Term, c: Term, e: Term, d: TimestampDigest)
    requires ValidDigest(d) && (c == Every(1) || e == Every(1))
    ensures Interpret(TermsMean(Terms([a], [b], [c], ANY, [e])), d) <==>
      && Covers(Minute, a, d.minute) && Covers(Hour, b, d.hour)
      && Covers(DayOfMonth, c, d.date) && Covers(DayOfWeek, e, d.dow)
  {
    var m := TermsMean(Terms([a], [b], [c], ANY, [e]));
    OneTerm(Minute, a, d.minute);
    OneTerm(Hour, b, d.hour);
    OneTerm(DayOfMonth, c, d.date);
    OneTerm(DayOfWeek, e, d.dow);
    AnyCoversAll(Month, d.month);
    if c == Every(1) {
      forall v ensures m.date(v) <==> DayOfMonth.Has(v) { AnyCoversAll(DayOfMonth, v); }
    } else {
      forall v ensures m.dow(v) <==> DayOfWeek.Has(v) { AnyCoversAll(DayOfWeek, v); }
    }
  }

  /** The pattern `a b c * e` compiles to the given matcher. */
  ghost predicate IsPattern(a: string, b: string, c: string, e: string, matcher: Matcher) {
    var r := ParsePattern(Join([a, b, c, "*", e], ' '));
    r.Compiled? && forall d | ValidDigest(d) :: ArrayMatcher(r.schedule, d) == matcher(d)
  }

  lemma SingleTexts(t: Terms, a: Term, b: Term, c: Term, e: Term)
    requires t == Terms([a], [b], [c], ANY, [e])
    ensures Texts(t) == [Render(a), Render(b), Render(c), "*", Render(e)]
  {}

  lemma SinglesWellFormed(t: Terms, a: Term, b: Term, c: Term, e: Term)
    requires t == Terms([a], [b], [c], ANY, [e])
    requires WellFormed(Minute, a) && WellFormed(Hour, b) && WellFormed(DayOfMonth, c) && WellFormed(DayOfWeek, e)
    ensures TermsWellFormed(t)
  {}

  lemma SinglePatternIs(t: Terms, a: string, b: string, c: string, e: string, s: Schedule, matcher: Matcher)
    requires t.Complete() && Texts(t) == [a, b, c, "*", e] && ParsePattern(RenderPattern(t)) == Compiled(s)
    requires forall d | ValidDigest(d) :: ArrayMatcher(s, d) == matcher(d)
    ensures IsPattern(a, b, c, e, matcher)
  {}

  lemma SingleTermPattern(a: Term, b: Term, c: Term, e: Term, matcher: Matcher)
    requires WellFormed(Minute, a) && WellFormed(Hour, b) && WellFormed(DayOfMonth, c) && WellFormed(DayOfWeek, e)
    requires (c == Every(1) || e == Every(1)) && !Overflows(DayOfMonth, c)
    requires forall d | ValidDigest(d) :: matcher(d) <==>
      && Covers(Minute, a, d.minute) && Covers(Hour, b, d.hour)
      && Covers(DayOfMonth, c, d.date) && Covers(DayOfWeek, e, d.dow)
    ensures IsPattern(Render(a), Render(b), Render(c), Render(e), matcher)
  {
    var t := Terms([a], [b], [c], ANY, [e]);
    SinglesWellFormed(t, a, b, c, e);
    PlainTermsAreNotSkewed(t);
    var s := PatternOfTerms(t);
    forall d | ValidDigest(d) ensures ArrayMatcher(s, d) == matcher(d) { SingleTerms(a, b, c, e, d); }
    SingleTexts(t, a, b, c, e);
    SinglePatternIs(t, Render(a), Render(b), Render(c), Render(e), s, matcher);
  }

  lemma StarCovers(field: Field, v: int)
    requires field.Has(v)
    ensures Covers(field, Every(1), v)
  {
    ReachesMultiples(field.Min(), v, 1);
  }

  lemma StarsCover(d: TimestampDigest)
    requires ValidDigest(d)
    ensures Covers(Minute, Every(1), d.minute) && Covers(Hour, Every(1), d.hour)
    ensures Covers(DayOfMonth, Every(1), d.date) && Covers(DayOfWeek, Every(1), d.dow)
  {
    StarCovers(Minute, d.minute);
    StarCovers(Hour, d.hour);
    StarCovers(DayOfMonth, d.date);
    StarCovers(DayOfWeek, d.dow);
  }

  lemma EveryMinuteIsPattern()
    ensures IsPattern("*", "*", "*", "*", CreateEveryMinuteMatcher())
  {
    forall d | ValidDigest(d)
      ensures Covers(Minute, Every(1), d.minute) && Covers(Hour, Every(1), d.hour)
      ensures Covers(DayOfMonth, Every(1), d.date) && Covers(DayOfWeek, Every(1), d.dow)
    {
      StarsCover(d);
    }
    SingleTermPattern(Every(1), Every(1), Every(1), Every(1), CreateEveryMinuteMatcher());
  }

  lemma HourlyIsPattern(minute: nat)
    requires minute <= 59
    ensures IsPattern(Decimal(minute), "*", "*", "*", CreateHourlyMatcher(minute))
  {
    forall d | ValidDigest(d)
      ensures Covers(Hour, Every(1), d.hour)
      ensures Covers(DayOfMonth, Every(1), d.date) && Covers(DayOfWeek, Every(1), d.dow)
    {
      StarsCover(d);
    }
    SingleTermPattern(Number(minute), Every(1), Every(1), Every(1), CreateHourlyMatcher(minute));
  }

  lemma DailyIsPattern(hour: nat, minute: nat)
    requires hour <= 23 && minute <= 59
    ensures IsPattern(Decimal(minute), Decimal(hour), "*", "*", CreateDailyMatcher(hour, minute))
  {
    forall d | ValidDigest(d)
      ensures Covers(DayOfMonth, Every(1), d.date) && Covers(DayOfWeek, Every(1), d.dow)
    {
      StarsCover(d);
    }
    SingleTermPattern(Number(minute), Number(hour), Every(1), Every(1), CreateDailyMatcher(hour, minute));
  }

  lemma WeeklyIsPattern(weekday: nat, hour: nat, minute: nat)
    requires weekday <= 6 && hour <= 23 && minute <= 59
    ensures IsPattern(Decimal(minute), Decimal(hour), "*", Decimal(weekday), CreateWeeklyMatcher(weekday, hour, minute))
  {
    forall d | ValidDigest(d) ensures Covers(DayOfMonth, Every(1), d.date) { StarsCover(d); }
    SingleTermPattern(Number(minute), Number(hour), Every(1), Number(weekday),
      CreateWeeklyMatcher(weekday, hour, minute));
  }

  lemma MonthlyIsPattern(day: nat, hour: nat, minute: nat)
    requires 1 <= day <= 31 && hour <= 23 && minute <= 59
    ensures IsPattern(Decimal(minute), Decimal(hour), Decimal(day), "*", CreateMonthlyMatcher(day, hour, minute))
  {
    forall d | ValidDigest(d) ensures Covers(DayOfWeek, Every(1), d.dow) { StarsCover(d); }
    SingleTermPattern(Number(minute), Number(hour), Number(day), Every(1), CreateMonthlyMatcher(day, hour, minute));
  }

  lemma BusinessRanges()
    ensures Render(Range(9, 17)) == "9-17" && Render(Range(1, 5)) == "1-5"
  {
    assert Decimal(17) == Decimal(1) + "7";
  }

  lemma BusinessHoursTerms(minute: nat, hours: Term, weekdays: Term)
    requires minute <= 59 && hours == Range(9, 17) && weekdays == Range(1, 5)
    ensures IsPattern(Decimal(minute), Render(hours), "*", Render(weekdays), CreateBusinessHoursMatcher(minute))
  {
    forall d | ValidDigest(d) ensures Covers(DayOfMonth, Every(1), d.date) { StarsCover(d); }
    SingleTermPattern(Number(minute), hours, Every(1), weekdays, CreateBusinessHoursMatcher(minute));
  }

  lemma BusinessHoursIsPattern(minute: nat, hours: string, weekdays: string)
    requires minute <= 59 && hours == "9-17" && weekdays == "1-5"
    ensures IsPattern(Decimal(minute), hours, "*", weekdays, CreateBusinessHoursMatcher(minute))
  {
    BusinessRanges();
    BusinessHoursTerms(minute, Range(9, 17), Range(1, 5));
  }

  lemma EitherDay(a: Term, b: Term, day: nat, dow: nat, d: TimestampDigest)
    requires ValidDigest(d) && 1 <= day <= 31 && dow <= 6
    ensures Interpret(TermsMean(Terms([a], [b], [Number(day)], ANY, [Number(dow)])), d) <==>
      Covers(Minute, a, d.minute) && Covers(Hour, b, d.hour) && (d.date == day || d.dow == dow)
  {
    var c, e := Number(day), Number(dow);
    var m := TermsMean(Terms([a], [b], [c], ANY, [e]));
    OneTerm(Minute, a, d.minute);
    OneTerm(Hour, b, d.hour);
    OneTerm(DayOfMonth, c, d.date);
    OneTerm(DayOfWeek, e, d.dow);
    AnyCoversAll(Month, d.month);
    OneTerm(DayOfMonth, c, if day == 1 then 2 else 1);
    OneTerm(DayOfWeek, e, if dow == 1 then 2 else 1);
    assert !m.date(if day == 1 then 2 else 1) && !m.dow(if dow == 1 then 2 else 1);
  }

  /** The rule of cron: with a date and a weekday both given, either is enough. */
  lemma EitherDayIsEnough(minute: nat, hour: nat, day: nat, dow: nat, matcher: Matcher)
    requires minute <= 59 && hour <= 23 && 1 <= day <= 31 && dow <= 6
    requires forall d | ValidDigest(d) ::
      matcher(d) <==> d.minute == minute && d.hour == hour && (d.date == day || d.dow == dow)
    ensures IsPattern(Decimal(minute), Decimal(hour), Decimal(day), Decimal(dow), matcher)
  {
    var a, b, c, e := Number(minute), Number(hour), Number(day), Number(dow);
    var t := Terms([a], [b], [c], ANY, [e]);
    SinglesWellFormed(t, a, b, c, e);
    PlainTermsAreNotSkewed(t);
    var s := PatternOfTerms(t);
    forall d | ValidDigest(d) ensures ArrayMatcher(s, d) == matcher(d) { EitherDay(a, b, day, dow, d); }
    SingleTexts(t, a, b, c, e);
    SinglePatternIs(t, Render(a), Render(b), Render(c), Render(e), s, matcher);
  }

  /** Given a value out of range, a matcher never fires. */
  lemma OutOfRangeNeverFires(minute: int, hour: int, date: int, dow: int, d: TimestampDigest)
    ensures !(0 <= minute <= 59) ==> !CreateHourlyMatcher(minute)(d) && !CreateBusinessHoursMatcher(minute)(d)
    ensures !(0 <= minute <= 59 && 0 <= hour <= 23) ==> !CreateDailyMatcher(hour, minute)(d)
    ensures !(0 <= minute <= 59 && 0 <= hour <= 23) ==> !CreateWeeklyMatcher(dow, hour, minute)(d)
    ensures !(0 <= dow <= 6) && ValidDigest(d) ==> !CreateWeeklyMatcher(dow, hour, minute)(d)
    ensures !(0 <= minute <= 59 && 0 <= hour <= 23 && 1 <= date <= 31) ==> !CreateMonthlyMatcher(date, hour, minute)(d)
  {}

  // A pattern that does not match as it reads

  lemma {:induction false} ListingEmpty(lo: int, hi: int, keep: int -> bool)
    requires forall v | lo <= v <= hi :: !keep(v)
    ensures Listing(lo, hi, keep) == []
    decreases hi - lo
  {
    if lo <= hi {
      ListingEmpty(lo + 1, hi, keep);
    }
  }

  lemma {:induction false} ListingPrefix(lo: int, hi: int, mid: int, keep: int -> bool)
    requires lo <= mid + 1 && mid <= hi && forall v | lo <= v <= hi :: keep(v) <==> v <= mid
    ensures |Listing(lo, hi, keep)| == mid - lo + 1
    decreases hi - lo
  {
    if lo <= mid {
      ListingPrefix(lo + 1, hi, mid, keep);
    } else {
      ListingEmpty(lo, hi, keep);
    }
  }

  lemma CoverageOfTerms(field: Field, terms: seq<Term>, mid: int)
    requires terms != [] && field.Min() <= mid <= field.Max()
    requires forall v | field.Has(v) :: AnyTermCovers(field, terms, v) <==> v <= mid
    ensures Coverage(field, RenderField(terms)) == mid - field.Min() + 1
  {
    var parts := Parts(RenderField(terms));
    var keep := v => AnyCovers(field, parts, v);
    forall v | field.Has(v) ensures keep(v) <==> v <= mid { RenderingCovers(field, terms, v); }
    ListingPrefix(field.Min(), field.Max(), mid, keep);
  }

  lemma StarsSelect(field: Field, v: int)
    requires field.Has(v)
    ensures SelectsSome(field, Meaning(field, RenderField(ANY)))
  {
    AnyCoversAll(field, v);
    RenderingCovers(field, ANY, v);
    assert Meaning(field, RenderField(ANY))(v);
  }

  lemma StarsCanMatch(t: Terms)
    requires t.Complete() && t.minute == t.hour == t.month == ANY
    ensures CanMatch(MeaningsOf(Texts(t)))
  {
    StarsSelect(Minute, 0);
    StarsSelect(Hour, 0);
    StarsSelect(Month, 1);
  }

  lemma SkewedBy(fields: seq<string>)
    requires |fields| == 5 && CanMatch(MeaningsOf(fields))
    requires AnyOverflows(DayOfMonth, Parts(fields[2])) && Coverage(DayOfMonth, fields[2]) == 29
    ensures Skewed(fields)
  {}

  lemma SkewedPatternFails(t: Terms) returns (s: Schedule)
    requires t.Complete() && TermsWellFormed(t) && Skewed(Texts(t))
    ensures ParsePattern(RenderPattern(t)) == Compiled(s)
    ensures !(forall d | ValidDigest(d) :: ArrayMatcher(s, d) == Interpret(TermsMean(t), d))
  {
    s := PatternOfTerms(t);
  }

  lemma SkewedDates(terms: seq<Term>, v: int)
    requires terms == [Every(MAX_INT), Range(2, 29)] && DayOfMonth.Has(v)
    ensures AnyTermCovers(DayOfMonth, terms, v) <==> v <= 29
  {
    ReachesMultiples(1, v, MAX_INT);
    assert Covers(DayOfMonth, terms[0], v) <==> v == 1;
    assert Covers(DayOfMonth, terms[1], v) <==> 2 <= v <= 29;
  }

  lemma SkewedDateField(terms: seq<Term>)
    requires terms == [Every(MAX_INT), Range(2, 29)]
    ensures AnyOverflows(DayOfMonth, Parts(RenderField(terms))) && Coverage(DayOfMonth, RenderField(terms)) == 29
  {
    assert Overflows(DayOfMonth, terms[0]);
    RenderingOverflows(DayOfMonth, terms);
    forall v | DayOfMonth.Has(v) ensures AnyTermCovers(DayOfMonth, terms, v) <==> v <= 29 { SkewedDates(terms, v); }
    CoverageOfTerms(DayOfMonth, terms, 29);
  }

  lemma SkewedTerms(t: Terms, texts: seq<string>)
    requires t.Complete() && t.minute == t.hour == t.month == ANY && texts == Texts(t)
    requires AnyOverflows(DayOfMonth, Parts(texts[2])) && Coverage(DayOfMonth, texts[2]) == 29
    ensures Skewed(texts)
  {
    StarsCanMatch(t);
    SkewedBy(texts);
  }

  lemma SkewedDateText(t: Terms, date: string)
    requires t.date == [Every(MAX_INT), Range(2, 29)] && date == RenderField(t.date)
    ensures AnyOverflows(DayOfMonth, Parts(date)) && Coverage(DayOfMonth, date) == 29
  {
    SkewedDateField(t.date);
  }

  /** Days 1 to 29, the first of them by a step of the largest integer: a pattern that SkewedPatternFails is about. */
  lemma SkewedPatternExists(t: Terms, texts: seq<string>)
    requires t.minute == t.hour == t.month == ANY && t.date == [Every(MAX_INT), Range(2, 29)]
    requires t.Complete() && texts == Texts(t)
    ensures Skewed(texts)
  {
    SkewedDateText(t, texts[2]);
    SkewedTerms(t, texts);
  }

  lemma LargestStepWellFormed(t: Terms)
    requires t.minute == t.hour == t.month == t.dow == ANY && t.date == [Every(MAX_INT), Range(2, 29)]
    ensures t.Complete() && TermsWellFormed(t)
  {}

  /** Every minute of days 1 to 29, day 1 by a step of the largest integer: accepted, and not matched as it reads. */
  lemma LargestStepFails(t: Terms) returns (s: Schedule, d: TimestampDigest)
    requires t.minute == t.hour == t.month == t.dow == ANY && t.date == [Every(MAX_INT), Range(2, 29)]
    ensures t.Complete() && ParsePattern(RenderPattern(t)) == Compiled(s)
    ensures ValidDigest(d) && ArrayMatcher(s, d) != Interpret(TermsMean(t), d)
  {
    LargestStepWellFormed(t);
    SkewedPatternExists(t, Texts(t));
    s := SkewedPatternFails(t);
    d :| ValidDigest(d) && ArrayMatcher(s, d) != Interpret(TermsMean(t), d);
  }
}
