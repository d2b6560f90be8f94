/** Decimal numerals, and splitting text at separators. */
module Text {

  predicate IsDigit(c: char) {
    '0' <= c <= '9'
  }

  /** [0-9]+ */
  predicate IsNumeral(s: string) {
    s != "" && forall i | 0 <= i < |s| :: IsDigit(s[i])
  }

  function NatOf(s: string): nat
    requires forall i | 0 <= i < |s| :: IsDigit(s[i])
  {
    if s == "" then 0
    else
      var last := s[|s| - 1];
      assert IsDigit(last);
      10 * NatOf(s[..|s| - 1]) + (last as int - '0' as int)
  }

  function Decimal(n: nat): (s: string)
    ensures IsNumeral(s) && NatOf(s) == n
  {
    var last := ['0' + (n % 10) as char];
    if n < 10 then
      assert last[..0] == "";
      last
    else
      var s := Decimal(n / 10) + last;
      assert s[..|s| - 1] == Decimal(n / 10);
      s
  }

  lemma DecimalInjective(m: nat, n: nat)
    requires Decimal(m) == Decimal(n)
    ensures m == n
  {}

  /** strings.Split: always at least one piece. */
  function Split(s: string, sep: char): (pieces: seq<string>)
    ensures |pieces| > 0
  {
    if s == "" then [""]
    else
      var rest := Split(s[1..], sep);
      if s[0] == sep then [""] + rest else [[s[0]] + rest[0]] + rest[1..]
  }

  function Join(pieces: seq<string>, sep: char): string
    requires |pieces| > 0
  {
    if |pieces| == 1 then pieces[0] else pieces[0] + [sep] + Join(pieces[1..], sep)
  }

  lemma {:induction false} SplitOne(s: string, sep: char)
    requires sep !in s
    ensures Split(s, sep) == [s]
  {
    if s != "" {
      SplitOne(s[1..], sep);
      assert [s[0]] + s[1..] == s;
    }
  }

  lemma {:induction false} SplitFirst(a: string, b: string, sep: char)
    requires sep !in a
    ensures Split(a + [sep] + b, sep) == [a] + Split(b, sep)
  {
    var s := a + [sep] + b;
    if a == "" {
      assert s[1..] == b;
    } else {
      SplitFirst(a[1..], b, sep);
      assert s[1..] == a[1..] + [sep] + b;
      assert [a[0]] + a[1..] == a;
    }
  }

  /** Split undoes Join. */
  lemma {:induction false} SplitJoin(pieces: seq<string>, sep: char)
    requires |pieces| > 0 && forall i | 0 <= i < |pieces| :: sep !in pieces[i]
    ensures Split(Join(pieces, sep), sep) == pieces
    decreases |pieces|
  {
    if |pieces| == 1 {
      SplitOne(pieces[0], sep);
    } else {
      SplitJoin(pieces[1..], sep);
      SplitFirst(pieces[0], Join(pieces[1..], sep), sep);
    }
  }

  // White space

  /** unicode.IsSpace, which strings.TrimSpace goes by. */
  predicate IsSpace(c: char) {
    || c in {'\t', '\n', '\r', ' '}
      || c as int in {0x0B, 0x0C, 0x85, 0xA0, 0x1680, 0x2028, 0x2029, 0x202F, 0x205F, 0x3000}
    || 0x2000 <= c as int <= 0x200A
  }

  function Trim(s: string): string {
    if s == "" then ""
    else if IsSpace(s[0]) then Trim(s[1..])
    else if IsSpace(s[|s| - 1]) then Trim(s[..|s| - 1])
    else s
  }

  lemma TrimPlain(s: string)
    requires forall i | 0 <= i < |s| :: !IsSpace(s[i])
    ensures Trim(s) == s
  {}

  /** The length of the first word of `s`. */
  function WordLength(s: string): (n: nat)
    ensures n <= |s| && (forall i | 0 <= i < n :: !IsSpace(s[i])) && (n < |s| ==> IsSpace(s[n]))
  {
    if s == "" || IsSpace(s[0]) then 0 else 1 + WordLength(s[1..])
  }

  /** strings.Fields */
  function Fields(s: string): seq<string>
    decreases |s|
  {
    if s == "" then []
    else if IsSpace(s[0]) then Fields(s[1..])
    else
      var n := WordLength(s);
      [s[..n]] + Fields(s[n..])
  }

  predicate IsWord(s: string) {
    s != "" && forall i | 0 <= i < |s| :: !IsSpace(s[i])
  }

  lemma {:induction false} WordLengthIs(s: string, n: nat)
    requires n <= |s| && (forall i | 0 <= i < n :: !IsSpace(s[i])) && (n < |s| ==> IsSpace(s[n]))
    ensures WordLength(s) == n
  {
    if n > 0 {
      WordLengthIs(s[1..], n - 1);
    }
  }

  lemma FieldsFirst(word: string, rest: string)
    requires IsWord(word)
    ensures Fields(word) == [word]
    ensures Fields(word + " " + rest) == [word] + Fields(rest)
  {
    var s := word + " " + rest;
    WordLengthIs(s, |word|);
    WordLengthIs(word, |word|);
    assert s[..|word|] == word && s[|word|..] == " " + rest;
    assert (" " + rest)[1..] == rest;
    assert word[..|word|] == word && word[|word|..] == "";
  }

  // Words with white space between them

  predicate IsGap(s: string) {
    s != "" && forall i | 0 <= i < |s| :: IsSpace(s[i])
  }

  function Spaced(words: seq<string>, gaps: seq<string>): string
    requires |words| == |gaps| + 1
  {
    if gaps == [] then words[0] else words[0] + gaps[0] + Spaced(words[1..], gaps[1..])
  }

  lemma {:induction false} FieldsAfterGap(gap: string, rest: string)
    requires forall i | 0 <= i < |gap| :: IsSpace(gap[i])
    ensures Fields(gap + rest) == Fields(rest)
  {
    if gap == "" {
      assert gap + rest == rest;
    } else {
      FieldsAfterGap(gap[1..], rest);
      assert (gap + rest)[1..] == gap[1..] + rest;
    }
  }

  lemma {:induction false} FieldsOfSpaced(words: seq<string>, gaps: seq<string>)
    requires |words| == |gaps| + 1
    requires (forall i | 0 <= i < |words| :: IsWord(words[i])) && forall i | 0 <= i < |gaps| :: IsGap(gaps[i])
    ensures Fields(Spaced(words, gaps)) == words
    decreases |gaps|
  {
    if gaps == [] {
      FieldsFirst(words[0], "");
    } else {
      var rest := Spaced(words[1..], gaps[1..]);
      var s := words[0] + gaps[0] + rest;
      FieldsOfSpaced(words[1..], gaps[1..]);
      FieldsAfterGap(gaps[0], rest);
      assert s == words[0] + (gaps[0] + rest);
      WordLengthIs(s, |words[0]|);
      assert s[..|words[0]|] == words[0] && s[|words[0]|..] == gaps[0] + rest;
    }
  }

  lemma {:induction false} SpacedEnds(words: seq<string>, gaps: seq<string>)
    requires |words| == |gaps| + 1 && forall i | 0 <= i < |words| :: IsWord(words[i])
    ensures var s := Spaced(words, gaps); s != "" && !IsSpace(s[0]) && !IsSpace(s[|s| - 1])
    decreases |gaps|
  {
    if gaps != [] {
      SpacedEnds(words[1..], gaps[1..]);
    }
  }

  function GapLength(s: string): (n: nat)
    ensures n <= |s| && (forall i | 0 <= i < n :: IsSpace(s[i])) && (n < |s| ==> !IsSpace(s[n]))
  {
    if s == "" || !IsSpace(s[0]) then 0 else 1 + GapLength(s[1..])
  }

  /** The text is these words with these gaps between them. */
  predicate IsSpaced(s: string, words: seq<string>, gaps: seq<string>) {
    && |words| == |gaps| + 1 && Spaced(words, gaps) == s
    && (forall i | 0 <= i < |words| :: IsWord(words[i])) && forall i | 0 <= i < |gaps| :: IsGap(gaps[i])
  }

  lemma SpacedPrepend(word: string, gap: string, rest: string, words: seq<string>, gaps: seq<string>)
    requires IsSpaced(rest, words, gaps) && IsWord(word) && IsGap(gap)
    ensures IsSpaced(word + gap + rest, [word] + words, [gap] + gaps)
  {
    assert ([word] + words)[1..] == words && ([gap] + gaps)[1..] == gaps;
  }

  lemma FirstField(word: string, gap: string, rest: string)
    requires IsWord(word) && IsGap(gap)
    ensures Fields(word + gap + rest) == [word] + Fields(rest)
  {
    var s := word + gap + rest;
    WordLengthIs(s, |word|);
    assert s[..|word|] == word && s[|word|..] == gap + rest;
    FieldsAfterGap(gap, rest);
  }

  lemma FirstSplits(s: string) returns (word: string, gap: string, rest: string)
    requires s != "" && !IsSpace(s[0]) && !IsSpace(s[|s| - 1]) && WordLength(s) < |s|
    ensures s == word + gap + rest && IsWord(word) && IsGap(gap)
    ensures rest != "" && !IsSpace(rest[0]) && !IsSpace(rest[|rest| - 1])
  {
    var n := WordLength(s);
    var tail := s[n..];
    var g := GapLength(tail);
    assert tail[|tail| - 1] == s[|s| - 1];
    word, gap, rest := s[..n], tail[..g], tail[g..];
    assert rest[|rest| - 1] == s[|s| - 1];
  }

  /** A text without white space around it is its fields with gaps between them. */
  lemma {:induction false} SpacedFields(s: string) returns (gaps: seq<string>)
    requires s != "" && !IsSpace(s[0]) && !IsSpace(s[|s| - 1])
    ensures IsSpaced(s, Fields(s), gaps)
    decreases |s|
  {
    if WordLength(s) == |s| {
      FieldsFirst(s, "");
      gaps := [];
    } else {
      var word, gap, rest := FirstSplits(s);
      var more := SpacedFields(rest);
      FirstField(word, gap, rest);
      SpacedPrepend(word, gap, rest, Fields(rest), more);
      gaps := [gap] + more;
    }
  }

  /** The characters of a spaced text are those of its words and gaps. */
  lemma {:induction false} CharactersOfSpaced(words: seq<string>, gaps: seq<string>, c: char)
    requires |words| == |gaps| + 1
    ensures c in Spaced(words, gaps) <==> (exists w :: w in words && c in w) || (exists g :: g in gaps && c in g)
    decreases |gaps|
  {
    if gaps != [] {
      CharactersOfSpaced(words[1..], gaps[1..], c);
      assert words == [words[0]] + words[1..] && gaps == [gaps[0]] + gaps[1..];
    } else {
      assert words == [words[0]];
    }
  }

  // White space around a text

  lemma {:induction false} TrimLeft(left: string, s: string)
    requires forall i | 0 <= i < |left| :: IsSpace(left[i])
    ensures Trim(left + s) == Trim(s)
  {
    if left == "" {
      assert left + s == s;
    } else {
      TrimLeft(left[1..], s);
      assert (left + s)[1..] == left[1..] + s;
    }
  }

  lemma {:induction false} TrimPadded(left: string, s: string, right: string)
    requires forall i | 0 <= i < |left| :: IsSpace(left[i])
    requires forall i | 0 <= i < |right| :: IsSpace(right[i])
    requires IsWord(s)
    ensures Trim(left + s + right) == s
    decreases |right|
  {
    TrimLeft(left, s + right);
    assert left + s + right == left + (s + right);
    if right == "" {
      assert s + right == s;
      TrimPlain(s);
    } else {
      var n := |right| - 1;
      TrimPadded("", s, right[..n]);
      assert "" + s + right[..n] == s + right[..n];
      assert (s + right)[..|s + right| - 1] == s + right[..n];
    }
  }
}
