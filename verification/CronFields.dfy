/** One time field of a cron pattern: what its text means, and how it is parsed to a list of values. */
module CronFields {
  import opened Wrappers
  import opened Text

  /** The largest machine integer: the parser counts in 64 bits. */
  const MAX_INT: int := 0x7FFF_FFFF_FFFF_FFFF

  /** Machine addition of two non-negative operands, or of one negative one, wraps around at most once. */
  function Wrap(x: int): int {
    if x > MAX_INT then x - 0x1_0000_0000_0000_0000 else x
  }

  datatype Field = Minute | Hour | DayOfMonth | Month | DayOfWeek {
    function Min(): int {
      if DayOfMonth? || Month? then 1 else 0
    }

    function Max(): int {
      match this
      case Minute => 59
      case Hour => 23
      case DayOfMonth => 31
      case Month => 12
      case DayOfWeek => 6
    }

    /** On the day of week, 7 is Sunday too. */
    function Wrapped(n: int): int {
      if DayOfWeek? && n == Max() + 1 then Min() else n
    }

    predicate Has(v: int) {
      Min() <= v <= Max()
    }
  }

  datatype Term = Number(n: nat) | Range(start: nat, end: nat) | Every(step: nat)

  datatype FieldError =
    | BadNumber(part: string)
    | OutOfRange(value: int)
    | BadStart(part: string)
    | BadEnd(part: string)
    | EndNotGreater
    | BadStep(part: string)
    | Unsupported(part: string)

  /** `Endless`: the loop over a range up to the largest integer has no last iteration. */
  datatype Verdict = Fine | Bad(error: FieldError) | Endless

  datatype FieldResult = Accepted(values: seq<int>) | Rejected(error: FieldError) | NeverReturns

  function IndexOf(s: string, c: char): (i: nat)
    ensures i <= |s| && (i < |s| ==> s[i] == c) && c !in s[..i]
  {
    if s == "" || s[0] == c then 0 else 1 + IndexOf(s[1..], c)
  }

  /** The three shapes a part can have. */
  function TermOf(part: string): Option<Term> {
    var dash := IndexOf(part, '-');
    if IsNumeral(part) then Some(Number(NatOf(part)))
    else if dash < |part| && IsNumeral(part[..dash]) && IsNumeral(part[dash + 1..]) then
      Some(Range(NatOf(part[..dash]), NatOf(part[dash + 1..])))
    else if part == "*" then Some(Every(1))
    else if |part| > 2 && part[..2] == "*/" && IsNumeral(part[2..]) then Some(Every(NatOf(part[2..])))
    else None
  }

  function Judge(field: Field, part: string): Verdict {
    match TermOf(part)
    case None => Bad(Unsupported(part))
    case Some(Number(n)) =>
      if n > MAX_INT then Bad(BadNumber(part))
      else if !field.Has(field.Wrapped(n)) then Bad(OutOfRange(field.Wrapped(n)))
      else Fine
    case Some(Range(start, end)) =>
      if start > MAX_INT then Bad(BadStart(part))
      else if end > MAX_INT then Bad(BadEnd(part))
      else if end <= start then Bad(EndNotGreater)
      else if end == MAX_INT then Endless
      else Fine
    case Some(Every(step)) =>
      if step > MAX_INT || step < 1 then Bad(BadStep(part)) else Fine
  }

  /** Some number of steps leads from `i` to `v`. */
  predicate Reaches(i: int, v: int, step: nat)
    requires step > 0
    decreases v - i
  {
    i == v || (i < v && Reaches(i + step, v, step))
  }

  /** What a well-formed term means: the values of the field it selects. */
  predicate Covers(field: Field, term: Term, v: int) {
    field.Has(v) &&
    match term
    case Number(n) => v == field.Wrapped(n)
    case Range(start, end) =>
      start <= v <= end || (field.DayOfWeek? && v == field.Min() && start <= field.Max() + 1 <= end)
    case Every(step) => step > 0 && Reaches(field.Min(), v, step)
  }

  /** From 1, a step of the largest integer wraps around, and the loop goes on below the range. */
  predicate Overflows(field: Field, term: Term) {
    term == Every(MAX_INT) && field.Min() == 1
  }

  const STRAY_VALUES: seq<int> := [-MAX_INT - 1, -1]

  function Parts(text: string): (parts: seq<string>)
    ensures |parts| > 0
  {
    var pieces := Split(text, ',');
    seq(|pieces|, i requires 0 <= i < |pieces| => Trim(pieces[i]))
  }

  /** The first part that is not fine decides. */
  function JudgeAll(field: Field, parts: seq<string>): Verdict {
    if parts == [] then Fine
    else if Judge(field, parts[0]).Fine? then JudgeAll(field, parts[1..])
    else Judge(field, parts[0])
  }

  predicate PartCovers(field: Field, part: string, v: int) {
    TermOf(part).Some? && Covers(field, TermOf(part).value, v)
  }

  predicate PartOverflows(field: Field, part: string) {
    TermOf(part).Some? && Overflows(field, TermOf(part).value)
  }

  predicate PartYields(field: Field, part: string, v: int) {
    PartCovers(field, part, v) || (PartOverflows(field, part) && v in STRAY_VALUES)
  }

  predicate AnyCovers(field: Field, parts: seq<string>, v: int) {
    exists i | 0 <= i < |parts| :: PartCovers(field, parts[i], v)
  }

  predicate AnyOverflows(field: Field, parts: seq<string>) {
    exists i | 0 <= i < |parts| :: PartOverflows(field, parts[i])
  }

  // Increasing lists

  ghost predicate Increasing(s: seq<int>) {
    forall i, j | 0 <= i < j < |s| :: s[i] < s[j]
  }

  /** The values from lo to hi that are kept, in order. */
  function Listing(lo: int, hi: int, keep: int -> bool): (s: seq<int>)
    ensures forall v :: v in s <==> lo <= v <= hi && keep(v)
    ensures Increasing(s)
    decreases hi - lo
  {
    if lo > hi then []
    else
      var rest := Listing(lo + 1, hi, keep);
      assert forall i | 0 <= i < |rest| :: rest[i] in rest;
      if keep(lo) then [lo] + rest else rest
  }

  lemma {:induction false} IncreasingIsUnique(a: seq<int>, b: seq<int>)
    requires Increasing(a) && Increasing(b) && forall v :: v in a <==> v in b
    ensures a == b
    decreases |a|
  {
    if a != [] { assert a[0] in a; }
    if b != [] { assert b[0] in b; }
    if a != [] {
      assert a[0] == b[0];
      forall v ensures v in a[1..] <==> v in b[1..] {
        assert v in a[1..] <==> v in a && v != a[0];
        assert v in b[1..] <==> v in b && v != b[0];
      }
      IncreasingIsUnique(a[1..], b[1..]);
    }
  }

  ghost predicate AnyYields(field: Field, parts: seq<string>, v: int) {
    exists i | 0 <= i < |parts| :: PartYields(field, parts[i], v)
  }

  /** The values of the range that some part covers, in order. */
  function Covered(field: Field, parts: seq<string>): (s: seq<int>)
    ensures Increasing(s) && forall v :: v in s <==> field.Has(v) && AnyCovers(field, parts, v)
  {
    Listing(field.Min(), field.Max(), v => AnyCovers(field, parts, v))
  }

  lemma {:induction false} ListingLength(lo: int, hi: int, keep: int -> bool)
    requires lo <= hi + 1
    ensures |Listing(lo, hi, keep)| <= hi - lo + 1
    ensures |Listing(lo, hi, keep)| == hi - lo + 1 <==> forall v | lo <= v <= hi :: keep(v)
    decreases hi - lo
  {
    if lo <= hi {
      ListingLength(lo + 1, hi, keep);
    }
  }

  /** Pigeonhole: the list is as long as the range exactly when it leaves nothing out. */
  lemma CoveredLength(field: Field, parts: seq<string>)
    ensures |Covered(field, parts)| <= field.Max() - field.Min() + 1
    ensures |Covered(field, parts)| == field.Max() - field.Min() + 1 <==>
      forall v | field.Has(v) :: AnyCovers(field, parts, v)
  {
    var keep := v => AnyCovers(field, parts, v);
    ListingLength(field.Min(), field.Max(), keep);
    forall v ensures keep(v) == AnyCovers(field, parts, v) {}
  }

  /** The values covered, after any stray ones. */
  function Values(field: Field, parts: seq<string>): seq<int> {
    (if AnyOverflows(field, parts) then STRAY_VALUES else []) + Covered(field, parts)
  }

  lemma YieldsSplit(field: Field, parts: seq<string>, v: int)
    ensures AnyYields(field, parts, v) <==>
      AnyCovers(field, parts, v) || (AnyOverflows(field, parts) && v in STRAY_VALUES)
  {}

  lemma OnlyInRange(field: Field, parts: seq<string>, v: int)
    requires AnyCovers(field, parts, v)
    ensures field.Has(v)
  {}

  lemma ValuesMembers(field: Field, parts: seq<string>, v: int)
    ensures v in Values(field, parts) <==> AnyYields(field, parts, v)
  {
    var listing := Covered(field, parts);
    var strays := if AnyOverflows(field, parts) then STRAY_VALUES else [];
    YieldsSplit(field, parts, v);
    assert v in strays + listing <==> v in strays || v in listing;
    if AnyCovers(field, parts, v) { OnlyInRange(field, parts, v); }
  }

  lemma ValuesIncrease(field: Field, parts: seq<string>)
    ensures Increasing(Values(field, parts))
  {
    var listing := Covered(field, parts);
    assert forall i | 0 <= i < |listing| :: listing[i] in listing;
  }

  function FieldValues(field: Field, text: string): FieldResult {
    match JudgeAll(field, Parts(text))
    case Bad(error) => Rejected(error)
    case Endless => NeverReturns
    case Fine => Accepted(Values(field, Parts(text)))
  }

  // The parser

  /** i, i + step, ... up to max */
  function Steps(i: int, max: int, step: nat): seq<int>
    requires step > 0
    decreases max - i
  {
    if i > max then [] else [i] + Steps(i + step, max, step)
  }

  lemma MultipleApart(s: int, k: int)
    requires s > 0
    ensures s * k <= 0 || s * k >= s
  {
    if k >= 1 {
      assert s * k == s * (k - 1) + s;
    }
  }

  lemma ModShift(x: int, s: int)
    requires s > 0
    ensures (x - s) % s == x % s
  {
    var q := x / s - (x - s) / s;
    assert s * q == s + (x - s) % s - x % s;
    MultipleApart(s, q - 1);
    MultipleApart(s, 1 - q);
  }

  /** Counting in steps reaches the values whose distance from the start is a multiple of the step. */
  lemma {:induction false} ReachesMultiples(i: int, v: int, step: nat)
    requires step > 0
    ensures Reaches(i, v, step) <==> i <= v && (v - i) % step == 0
    decreases v - i
  {
    if i < v {
      ReachesMultiples(i + step, v, step);
      ModShift(v - i, step);
      if v < i + step {
        assert (v - i) % step == v - i;
      }
    }
  }

  lemma {:induction false} StepsMembers(i: int, max: int, step: nat, v: int)
    requires step > 0
    ensures v in Steps(i, max, step) <==> v <= max && Reaches(i, v, step)
    decreases max - i
  {
    if i <= max {
      StepsMembers(i + step, max, step, v);
    }
  }

  /** for i := start; i <= end; i++ */
  method AppendRange(field: Field, start: nat, end: nat, numbers: seq<int>) returns (more: seq<int>)
    requires start < end < MAX_INT
    ensures forall v :: v in more <==> v in numbers || Covers(field, Range(start, end), v)
  {
    more := numbers;
    for i := start to end + 1
      invariant forall v :: v in more <==>
        || v in numbers
        || (field.Has(v) && start <= v < i)
        || (field.DayOfWeek? && v == field.Min() && start <= field.Max() + 1 < i)
    {
      var num := field.Wrapped(i);
      if field.Has(num) {
        more := more + [num];
      }
    }
  }

  /** for i := min; i <= max; i += step, in machine integers */
  method AppendSteps(field: Field, step: nat, numbers: seq<int>) returns (more: seq<int>)
    requires 1 <= step <= MAX_INT
    ensures more == numbers + Steps(field.Min(), field.Max(), step)
      + (if Overflows(field, Every(step)) then STRAY_VALUES else [])
  {
    more := numbers;
    var i := field.Min();
    ghost var wrapped := 0;  // iterations since the wrap, counting the one that wrapped
    while i <= field.Max()
      invariant 0 <= wrapped <= 3
      invariant wrapped == 0 ==> i == field.Min() || i >= field.Min() + step
      invariant wrapped == 0 ==>
        i <= field.Max() + step <= field.Max() + MAX_INT && (i > field.Max() ==> !Overflows(field, Every(step)))
      invariant wrapped == 0 ==> more + Steps(i, field.Max(), step) == numbers + Steps(field.Min(), field.Max(), step)
      invariant wrapped > 0 ==> Overflows(field, Every(step)) && i == [-MAX_INT - 1, -1, MAX_INT - 1][wrapped - 1]
      invariant wrapped > 0 ==> more == numbers + Steps(field.Min(), field.Max(), step) + STRAY_VALUES[..wrapped - 1]
      decreases 3 - wrapped, field.Max() - i
    {
      if wrapped == 0 {
        assert more + [i] + Steps(i + step, field.Max(), step) == more + Steps(i, field.Max(), step);
      }
      more := more + [i];
      if wrapped > 0 || i + step > MAX_INT {
        wrapped := wrapped + 1;
      }
      i := Wrap(i + step);
    }
  }

  ghost predicate Sorted(s: seq<int>) {
    forall i, j | 0 <= i < j < |s| :: s[i] <= s[j]
  }

  function Insert(s: seq<int>, v: int): (r: seq<int>)
    requires Sorted(s)
    ensures Sorted(r) && forall x :: x in r <==> x == v || x in s
  {
    if s == [] || v <= s[0] then [v] + s
    else
      var rest := Insert(s[1..], v);
      assert forall x :: x in rest ==> s[0] <= x;
      assert forall i | 0 <= i < |rest| :: rest[i] in rest;
      [s[0]] + rest
  }

  /** sort.Ints, of which only the order and the members matter here. */
  function SortInts(s: seq<int>): (r: seq<int>)
    ensures Sorted(r) && forall x :: x in r <==> x in s
  {
    if s == [] then [] else Insert(SortInts(s[1..]), s[0])
  }

  /** Keeps the first of each run of equal numbers. */
  method Deduplicate(numbers: seq<int>) returns (unique: seq<int>)
    requires Sorted(numbers)
    ensures Increasing(unique) && forall v :: v in unique <==> v in numbers
  {
    unique := [];
    for i := 0 to |numbers|
      invariant Increasing(unique) && forall v :: v in unique <==> v in numbers[..i]
      invariant if i == 0 then unique == [] else unique != [] && unique[|unique| - 1] == numbers[i - 1]
      invariant forall k | 0 <= k < |unique| :: unique[k] <= unique[|unique| - 1]
    {
      assert i > 0 ==> numbers[i - 1] <= numbers[i];
      if i == 0 || numbers[i - 1] != numbers[i] {
        unique := unique + [numbers[i]];
      }
    }
    assert numbers[..|numbers|] == numbers;
  }

  lemma {:induction false} JudgeAllFine(field: Field, parts: seq<string>)
    ensures JudgeAll(field, parts).Fine? <==> forall i | 0 <= i < |parts| :: Judge(field, parts[i]).Fine?
  {
    if parts != [] {
      JudgeAllFine(field, parts[1..]);
    }
  }

  /** The first faulty part gives the verdict. */
  lemma {:induction false} FirstFaultJudges(field: Field, parts: seq<string>, i: nat)
    requires i < |parts| && !Judge(field, parts[i]).Fine? && forall k | 0 <= k < i :: Judge(field, parts[k]).Fine?
    ensures JudgeAll(field, parts) == Judge(field, parts[i])
  {
    if i > 0 {
      FirstFaultJudges(field, parts[1..], i - 1);
    }
  }

  /** One part of a field: its values are appended, or the fault is told. */
  method ParsePart(field: Field, part: string, numbers: seq<int>) returns (verdict: Verdict, more: seq<int>)
    ensures verdict == Judge(field, part)
    ensures TermOf(part).None? ==> verdict == Bad(Unsupported(part))
    ensures forall n: nat | TermOf(part) == Some(Number(n)) && !verdict.Fine? ::
      !field.Has(n) && verdict == Bad(if n > 9223372036854775807 then BadNumber(part) else OutOfRange(n))
    ensures forall a: nat, b: nat | TermOf(part) == Some(Range(a, b)) :: (
      verdict ==
        if a > 9223372036854775807 then Bad(BadStart(part)) else if b > 9223372036854775807 then Bad(BadEnd(part))
        else if a >= b then Bad(EndNotGreater) else if b == 9223372036854775807 then Endless else Fine)
    ensures forall n: nat | TermOf(part) == Some(Every(n)) ::
      verdict == if 1 <= n <= 9223372036854775807 then Fine else Bad(BadStep(part))
    ensures verdict.Fine? ==> forall v :: v in more <==> v in numbers || PartYields(field, part, v)
  {
    verdict, more := Fine, numbers;
    match TermOf(part) {
      case None =>
        verdict := Bad(Unsupported(part));
      case Some(Number(n)) =>
        var num := field.Wrapped(n);
        if n > MAX_INT {
          verdict := Bad(BadNumber(part));
        } else if num < field.Min() || num > field.Max() {
          verdict := Bad(OutOfRange(num));
        } else {
          more := numbers + [num];
        }
      case Some(Range(start, end)) =>
        if start > MAX_INT {
          verdict := Bad(BadStart(part));
        } else if end > MAX_INT {
          verdict := Bad(BadEnd(part));
        } else if end <= start {
          verdict := Bad(EndNotGreater);
        } else if end == MAX_INT {
          verdict := Endless;
        } else {
          more := AppendRange(field, start, end, numbers);
        }
      case Some(Every(step)) =>
        if step > MAX_INT || step < 1 {
          verdict := Bad(BadStep(part));
        } else {
          more := AppendSteps(field, step, numbers);
          forall v ensures v in more <==> v in numbers || PartYields(field, part, v) {
            StepsMembers(field.Min(), field.Max(), step, v);
          }
        }
    }
  }

  lemma AnyYieldsAppend(field: Field, parts: seq<string>, part: string, v: int)
    ensures AnyYields(field, parts + [part], v) <==> AnyYields(field, parts, v) || PartYields(field, part, v)
  {
    var all := parts + [part];
    if i :| 0 <= i < |parts| && PartYields(field, parts[i], v) {
      assert PartYields(field, all[i], v);
    }
    assert all[|parts|] == part;
  }

  /** The numbers collected from all parts, sorted and deduplicated. */
  lemma ValuesAre(field: Field, text: string, unique: seq<int>)
    requires forall i | 0 <= i < |Parts(text)| :: Judge(field, Parts(text)[i]).Fine?
    requires Increasing(unique) && forall v :: v in unique <==> AnyYields(field, Parts(text), v)
    ensures FieldValues(field, text) == Accepted(unique)
  {
    var parts := Parts(text);
    JudgeAllFine(field, parts);
    ValuesIncrease(field, parts);
    forall v ensures v in unique <==> v in Values(field, parts) {
      ValuesMembers(field, parts, v);
    }
    IncreasingIsUnique(unique, Values(field, parts));
  }

  lemma FaultDecides(field: Field, text: string, i: nat)
    requires i < |Parts(text)| && !Judge(field, Parts(text)[i]).Fine?
    requires forall k | 0 <= k < i :: Judge(field, Parts(text)[k]).Fine?
    ensures FieldValues(field, text)
      == match Judge(field, Parts(text)[i]) case Bad(error) => Rejected(error) case _ => NeverReturns
  {
    FirstFaultJudges(field, Parts(text), i);
  }

  /** The numbers of all parts, in the order of the parts. */
  method CollectNumbers(field: Field, parts: seq<string>) returns (verdict: Verdict, at: nat, numbers: seq<int>)
    ensures verdict.Fine? ==> forall k | 0 <= k < |parts| :: Judge(field, parts[k]).Fine?
    ensures verdict.Fine? ==> forall v :: v in numbers <==> AnyYields(field, parts, v)
    ensures !verdict.Fine? ==>
      && at < |parts| && verdict == Judge(field, parts[at])
      && forall k | 0 <= k < at :: Judge(field, parts[k]).Fine?
  {
    numbers := [];
    for i := 0 to |parts|
      invariant forall k | 0 <= k < i :: Judge(field, parts[k]).Fine?
      invariant forall v :: v in numbers <==> AnyYields(field, parts[..i], v)
    {
      var judged, more := ParsePart(field, parts[i], numbers);
      if !judged.Fine? {
        return judged, i, numbers;
      }
      forall v ensures v in more <==> AnyYields(field, parts[..i + 1], v) {
        AnyYieldsAppend(field, parts[..i], parts[i], v);
        assert parts[..i + 1] == parts[..i] + [parts[i]];
      }
      numbers := more;
    }
    assert parts[..|parts|] == parts;
    return Fine, 0, numbers;
  }

  method ParseCrontabRange(field: Field, text: string) returns (r: FieldResult)
    ensures r == FieldValues(field, text)
  {
    var verdict, at, numbers := CollectNumbers(field, Parts(text));
    match verdict {
      case Bad(error) =>
        FaultDecides(field, text, at);
        return Rejected(error);
      case Endless =>
        FaultDecides(field, text, at);
        return NeverReturns;
      case Fine =>
        var unique := Deduplicate(SortInts(numbers));
        ValuesAre(field, text, unique);
        return Accepted(unique);
    }
  }

  // What an accepted field yields

  /** Within the range, exactly the values some part covers, once each and in order. */
  lemma ValuesAreTheUnion(field: Field, text: string, v: int)
    requires FieldValues(field, text).Accepted?
    ensures Increasing(FieldValues(field, text).values)
    ensures v in FieldValues(field, text).values && field.Has(v) <==> AnyCovers(field, Parts(text), v)
  {
    ValuesIncrease(field, Parts(text));
    ValuesMembers(field, Parts(text), v);
    YieldsSplit(field, Parts(text), v);
    if AnyCovers(field, Parts(text), v) { OnlyInRange(field, Parts(text), v); }
  }

  /** A field stays in its range exactly when no part steps by the largest integer from 1. */
  lemma StaysInRange(field: Field, text: string)
    requires FieldValues(field, text).Accepted?
    ensures (forall v | v in FieldValues(field, text).values :: field.Has(v)) <==> !AnyOverflows(field, Parts(text))
  {
    var parts := Parts(text);
    ValuesMembers(field, parts, -1);
    YieldsSplit(field, parts, -1);
    forall v | v in Values(field, parts) ensures field.Has(v) || AnyOverflows(field, parts) {
      ValuesMembers(field, parts, v);
      YieldsSplit(field, parts, v);
      if AnyCovers(field, parts, v) { OnlyInRange(field, parts, v); }
    }
  }

  // What terms are, and what they mean

  lemma NumeralHas(a: string, c: char)
    requires IsNumeral(a) && !IsDigit(c)
    ensures forall k | 0 <= k < |a| :: a[k] != c
  {}

  lemma RangeShape(a: string, b: string)
    requires IsNumeral(a) && IsNumeral(b)
    ensures TermOf(a + "-" + b) == Some(Range(NatOf(a), NatOf(b)))
  {
    var s := a + "-" + b;
    assert s[|a|] == '-' && s[..|a|] == a && s[|a| + 1..] == b;
    assert !IsNumeral(s) by { assert !IsDigit(s[|a|]); }
    NumeralHas(a, '-');
    IndexOfIs(s, '-', |a|);
  }

  lemma StepShape(a: string)
    requires IsNumeral(a)
    ensures TermOf("*/" + a) == Some(Every(NatOf(a)))
  {
    var s := "*/" + a;
    assert s[..2] == "*/" && s[2..] == a;
    assert !IsNumeral(s) by { assert !IsDigit(s[0]); }
    var i := IndexOf(s, '-');
    assert !IsNumeral(s[..i]) by {
      if i > 0 { assert s[..i][0] == '*' && !IsDigit('*'); }
    }
  }

  /** The texts that are terms: n, a-b, * and * with a step, in decimal numerals of any length. */
  lemma TermShapes(part: string, a: string, b: string)
    requires IsNumeral(a) && IsNumeral(b)
    ensures part == a ==> TermOf(part) == Some(Number(NatOf(a)))
    ensures part == a + "-" + b ==> TermOf(part) == Some(Range(NatOf(a), NatOf(b)))
    ensures part == "*" ==> TermOf(part) == Some(Every(1))
    ensures part == "*/" + a ==> TermOf(part) == Some(Every(NatOf(a)))
  {
    RangeShape(a, b);
    StepShape(a);
    assert !IsNumeral("*") by { assert !IsDigit("*"[0]); }
  }

  /** And no others. */
  lemma TermHasShape(part: string)
    requires TermOf(part).Some?
    ensures IsNumeral(part) || part == "*" || (|part| > 2 && part == "*/" + part[2..] && IsNumeral(part[2..])) ||
      exists a, b :: IsNumeral(a) && IsNumeral(b) && part == a + "-" + b
  {
    var i := IndexOf(part, '-');
    if i < |part| {
      assert part == part[..i] + "-" + part[i + 1..];
    }
    if |part| > 2 {
      assert part == part[..2] + part[2..];
    }
  }

  /** Numbers, clipped ranges and steps from the least value; on the weekday 7 is Sunday, 0. */
  lemma CoversMeans(field: Field, v: int, a: nat, b: nat, n: nat)
    requires n > 0
    ensures Covers(field, Number(a), v) <==> field.Has(v) && (v == a || (field.DayOfWeek? && a == 7 && v == 0))
    ensures Covers(field, Range(a, b), v) <==>
      field.Has(v) && (a <= v <= b || (field.DayOfWeek? && a <= 7 <= b && v == 0))
    ensures Covers(field, Every(n), v) <==>
      field.Has(v) && (v - (if field.DayOfMonth? || field.Month? then 1 else 0)) % n == 0
  {
    ReachesMultiples(field.Min(), v, n);
  }

  // Rendering

  function Render(term: Term): string {
    match term
    case Number(n) => Decimal(n)
    case Range(start, end) => Decimal(start) + "-" + Decimal(end)
    case Every(step) => if step == 1 then "*" else "*/" + Decimal(step)
  }

  predicate IsPlain(s: string) {
    s != "" && forall i | 0 <= i < |s| :: IsDigit(s[i]) || s[i] in "*/-"
  }

  lemma {:induction false} IndexOfIs(s: string, c: char, i: nat)
    requires i < |s| && s[i] == c && forall k | 0 <= k < i :: s[k] != c
    ensures IndexOf(s, c) == i
  {
    if i > 0 {
      IndexOfIs(s[1..], c, i - 1);
    }
  }

  lemma RangeIsRead(start: nat, end: nat)
    ensures TermOf(Render(Range(start, end))) == Some(Range(start, end)) && IsPlain(Render(Range(start, end)))
  {
    var a, b, s := Decimal(start), Decimal(end), Render(Range(start, end));
    assert s[|a|] == '-' && s[..|a|] == a && s[|a| + 1..] == b;
    assert !IsNumeral(s) by { assert !IsDigit(s[|a|]); }
    forall k | 0 <= k < |a| ensures s[k] != '-' { assert IsDigit(a[k]); }
    IndexOfIs(s, '-', |a|);
    assert forall i | 0 <= i < |s| :: s[i] == if i < |a| then a[i] else if i == |a| then '-' else b[i - |a| - 1];
  }

  lemma StepIsRead(step: nat)
    ensures TermOf(Render(Every(step))) == Some(Every(step)) && IsPlain(Render(Every(step)))
  {
    if step == 1 {
      assert !IsNumeral("*") by { assert !IsDigit("*"[0]); }
      return;
    }
    var d, s := Decimal(step), Render(Every(step));
    assert s[..2] == "*/" && s[2..] == d;
    assert !IsNumeral(s) by { assert !IsDigit(s[0]); }
    assert !IsNumeral(s[..IndexOf(s, '-')]) by {
      var i := IndexOf(s, '-');
      if i > 0 { assert s[..i][0] == '*' && !IsDigit('*'); }
    }
    assert forall i | 2 <= i < |s| :: s[i] == d[i - 2];
  }

  lemma TermOfRender(term: Term)
    ensures TermOf(Render(term)) == Some(term) && IsPlain(Render(term))
  {
    match term
    case Number(n) =>
    case Range(start, end) => RangeIsRead(start, end);
    case Every(step) => StepIsRead(step);
  }

  function RenderAll(terms: seq<Term>): (pieces: seq<string>)
    ensures |pieces| == |terms| && forall i | 0 <= i < |terms| :: pieces[i] == Render(terms[i])
  {
    seq(|terms|, i requires 0 <= i < |terms| => Render(terms[i]))
  }

  lemma PlainIsOnePart(s: string)
    requires IsPlain(s)
    ensures ',' !in s && Trim(s) == s
  {
    forall i | 0 <= i < |s| ensures s[i] != ',' && !IsSpace(s[i]) {
      assert IsDigit(s[i]) || s[i] in "*/-";
    }
    TrimPlain(s);
  }

  lemma PlainParts(pieces: seq<string>)
    requires pieces != [] && forall i | 0 <= i < |pieces| :: IsPlain(pieces[i])
    ensures Parts(Join(pieces, ',')) == pieces
  {
    forall i | 0 <= i < |pieces| ensures ',' !in pieces[i] && Trim(pieces[i]) == pieces[i] {
      PlainIsOnePart(pieces[i]);
    }
    SplitJoin(pieces, ',');
  }

  /** White space around the parts of a field does not matter. */
  lemma PartsPadded(left: seq<string>, pieces: seq<string>, right: seq<string>)
    requires pieces != [] && |left| == |pieces| == |right|
    requires forall i | 0 <= i < |pieces| :: IsWord(pieces[i]) && ',' !in pieces[i]
    requires forall i | 0 <= i < |pieces| :: forall c | c in left[i] || c in right[i] :: IsSpace(c)
    ensures Parts(Join(seq(|pieces|, i requires 0 <= i < |pieces| => left[i] + pieces[i] + right[i]), ',')) == pieces
  {
    var padded := seq(|pieces|, i requires 0 <= i < |pieces| => left[i] + pieces[i] + right[i]);
    forall i | 0 <= i < |pieces| ensures ',' !in padded[i] && Trim(padded[i]) == pieces[i] {
      assert forall k | 0 <= k < |left[i]| :: left[i][k] in left[i];
      assert forall k | 0 <= k < |right[i]| :: right[i][k] in right[i];
      TrimPadded(left[i], pieces[i], right[i]);
    }
    SplitJoin(padded, ',');
  }

  lemma PartsOfRendering(terms: seq<Term>)
    requires terms != []
    ensures Parts(Join(RenderAll(terms), ',')) == RenderAll(terms)
  {
    forall i | 0 <= i < |terms| ensures IsPlain(RenderAll(terms)[i]) { TermOfRender(terms[i]); }
    PlainParts(RenderAll(terms));
  }

  predicate WellFormed(field: Field, term: Term) {
    match term
    case Number(n) => n <= MAX_INT && field.Has(field.Wrapped(n))
    case Range(start, end) => start < end < MAX_INT
    case Every(step) => 1 <= step <= MAX_INT
  }

  lemma JudgedByTerm(field: Field, part: string, term: Term)
    requires TermOf(part) == Some(term)
    ensures Judge(field, part).Fine? <==> WellFormed(field, term)
  {}

  lemma WellFormedIsFine(field: Field, term: Term)
    ensures Judge(field, Render(term)).Fine? <==> WellFormed(field, term)
  {
    TermOfRender(term);
    JudgedByTerm(field, Render(term), term);
  }

  function RenderField(terms: seq<Term>): string
    requires terms != []
  {
    Join(RenderAll(terms), ',')
  }

  predicate AnyTermCovers(field: Field, terms: seq<Term>, v: int) {
    exists i | 0 <= i < |terms| :: Covers(field, terms[i], v)
  }

  lemma RenderingCovers(field: Field, terms: seq<Term>, v: int)
    requires terms != []
    ensures AnyCovers(field, Parts(RenderField(terms)), v) <==> AnyTermCovers(field, terms, v)
  {
    PartsOfRendering(terms);
    forall i | 0 <= i < |terms| ensures PartCovers(field, RenderAll(terms)[i], v) == Covers(field, terms[i], v) {
      TermOfRender(terms[i]);
    }
  }

  /** A list of terms, rendered and parsed: accepted exactly when each term is well formed, and then their union. */
  lemma ParsesRendering(field: Field, terms: seq<Term>)
    requires terms != []
    ensures var r := FieldValues(field, RenderField(terms));
      && (r.Accepted? <==> forall i | 0 <= i < |terms| :: WellFormed(field, terms[i]))
      && (r.Accepted? ==> Increasing(r.values))
      && (r.Accepted? ==> forall v :: v in r.values && field.Has(v) <==> AnyTermCovers(field, terms, v))
  {
    PartsOfRendering(terms);
    JudgeAllFine(field, RenderAll(terms));
    forall i | 0 <= i < |terms| ensures Judge(field, RenderAll(terms)[i]).Fine? == WellFormed(field, terms[i]) {
      WellFormedIsFine(field, terms[i]);
    }
    var r := FieldValues(field, RenderField(terms));
    if r.Accepted? {
      forall v ensures v in r.values && field.Has(v) <==> AnyTermCovers(field, terms, v) {
        ValuesAreTheUnion(field, RenderField(terms), v);
        RenderingCovers(field, terms, v);
      }
      ValuesAreTheUnion(field, RenderField(terms), 0);
    }
  }

  /** And it overflows exactly when one of the terms does. */
  lemma RenderingOverflows(field: Field, terms: seq<Term>)
    requires terms != []
    ensures AnyOverflows(field, Parts(RenderField(terms))) <==>
      exists i | 0 <= i < |terms| :: Overflows(field, terms[i])
  {
    PartsOfRendering(terms);
    forall i | 0 <= i < |terms| ensures PartOverflows(field, RenderAll(terms)[i]) == Overflows(field, terms[i]) {
      TermOfRender(terms[i]);
    }
  }

  lemma {:induction false} JoinIsPlain(pieces: seq<string>)
    requires pieces != [] && forall i | 0 <= i < |pieces| :: IsPlain(pieces[i])
    ensures Join(pieces, ',') != "" && forall i | 0 <= i < |Join(pieces, ',')| ::
      IsDigit(Join(pieces, ',')[i]) || Join(pieces, ',')[i] in "*/,-"
    decreases |pieces|
  {
    if |pieces| > 1 {
      JoinIsPlain(pieces[1..]);
    }
  }

  /** A rendered field has only the characters a pattern may have. */
  lemma RenderedCharacters(terms: seq<Term>)
    requires terms != []
    ensures RenderField(terms) != "" && forall i | 0 <= i < |RenderField(terms)| ::
      IsDigit(RenderField(terms)[i]) || RenderField(terms)[i] in "*/,-"
  {
    forall i | 0 <= i < |terms| ensures IsPlain(RenderAll(terms)[i]) { TermOfRender(terms[i]); }
    JoinIsPlain(RenderAll(terms));
  }
}
