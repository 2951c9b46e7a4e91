/** The five-field cron matcher, and what the fields mean. */
module Cron {
  import opened Arithmetic
  import opened Strings
  import opened Tables

  const MIN_INT := -0x8000_0000_0000_0000
  const MAX_INT := 0x7fff_ffff_ffff_ffff

  predicate IsDigit(c: char) {
    '0' <= c <= '9'
  }

  predicate IsSpace(c: char) {
    || c in {'\t', '\n', '\U{000B}', '\U{000C}', '\r', ' ', '\U{0085}', '\U{00A0}', '\U{1680}'}
    || '\U{2000}' <= c <= '\U{200A}'
    || c in {'\U{2028}', '\U{2029}', '\U{202F}', '\U{205F}', '\U{3000}'}
  }

  predicate IsGap(s: string) {
    forall c :: c in s ==> IsSpace(c)
  }

  predicate IsWord(s: string) {
    s != "" && forall c :: c in s ==> !IsSpace(c)
  }

  /** How many characters precede the first space. */
  function WordLength(s: string): (n: nat)
    ensures n <= |s|
    ensures forall k :: 0 <= k < n ==> !IsSpace(s[k])
    ensures n < |s| ==> IsSpace(s[n])
  {
    if s == "" || IsSpace(s[0]) then 0 else 1 + WordLength(s[1..])
  }

  /** The words between runs of spaces. */
  function Fields(s: string): seq<string>
    decreases |s|
  {
    if s == "" then []
    else if IsSpace(s[0]) then Fields(s[1..])
    else
      var n := WordLength(s);
      [s[..n]] + Fields(s[n..])
  }

  function Value(digits: string): nat
    requires forall c :: c in digits ==> IsDigit(c)
  {
    if digits == "" then 0
    else
      var last := digits[|digits| - 1];
      assert IsDigit(last);
      10 * Value(digits[..|digits| - 1]) + (last as int - '0' as int)
  }

  function Signed(negative: bool, digits: string): Option<int> {
    if digits == "" || exists c :: c in digits && !IsDigit(c) then None
    else
      var size: int := Value(digits);
      var n := if negative then -size else size;
      if MIN_INT <= n <= MAX_INT then Some(n) else None
  }

  /** A decimal number with an optional sign that fits a 64-bit integer. */
  function Atoi(s: string): Option<int> {
    if s != "" && (s[0] == '+' || s[0] == '-') then Signed(s[0] == '-', s[1..]) else Signed(false, s)
  }

  datatype Time = Time(minute: int, hour: int, day: int, month: int, weekday: int) {
    predicate Valid() {
      0 <= minute <= 59 && 0 <= hour <= 23 && 1 <= day <= 31 && 1 <= month <= 12 && 0 <= weekday <= 6
    }
  }

  // The matcher

  predicate MatchCron(spec: string, t: Time) {
    var fields := Fields(spec);
    && |fields| == 5
    && MatchPart(fields[0], t.minute, 0, 59)
    && MatchPart(fields[1], t.hour, 0, 23)
    && MatchPart(fields[2], t.day, 1, 31)
    && MatchPart(fields[3], t.month, 1, 12)
    && MatchDow(fields[4], t.weekday)
  }

  predicate MatchDow(spec: string, val: int) {
    if val == 0 then MatchPart(spec, 0, 0, 7) || MatchPart(spec, 7, 0, 7) else MatchPart(spec, val, 0, 7)
  }

  predicate MatchPart(spec: string, val: int, min: int, max: int)
    decreases ',' in spec, 1
  {
    if spec == "*" then true
    else if ',' in spec then MatchList(spec, val, min, max)
    else if "*/" <= spec then MatchStep(spec, val, min)
    else if '-' in spec then MatchRange(spec, val)
    else MatchSingle(spec, val)
  }

  predicate MatchList(spec: string, val: int, min: int, max: int)
    requires ',' in spec
    decreases ',' in spec, 0
  {
    exists part :: part in Split(spec, ',') && MatchPart(part, val, min, max)
  }

  predicate MatchStep(spec: string, val: int, min: int)
    requires "*/" <= spec
  {
    var step := Atoi(spec[2..]);
    step.Some? && step.value > 0 && (val - min) % step.value == 0
  }

  predicate MatchRange(spec: string, val: int) {
    var parts := Split(spec, '-');
    |parts| == 2 && Atoi(parts[0]).Some? && Atoi(parts[1]).Some? && Atoi(parts[0]).value <= val <= Atoi(parts[1]).value
  }

  predicate MatchSingle(spec: string, val: int) {
    Atoi(spec) == Some(val)
  }

  // What fields mean

  datatype Atom = Star | Step(n: nat) | Range(lo: nat, hi: nat) | Single(n: nat) {
    predicate Fits() {
      match this
      case Star => true
      case Step(n) => n <= MAX_INT
      case Range(lo, hi) => lo <= MAX_INT && hi <= MAX_INT
      case Single(n) => n <= MAX_INT
    }

    function Print(): string {
      match this
      case Star => "*"
      case Step(n) => "*/" + Show(n)
      case Range(lo, hi) => Show(lo) + "-" + Show(hi)
      case Single(n) => Show(n)
    }

    /** The values from `min` on that the atom stands for; a step of zero stands for none. */
    ghost predicate Denotes(min: int, val: int) {
      match this
      case Star => true
      case Step(n) => n > 0 && exists k: nat :: val == Nth(min, n, k)
      case Range(lo, hi) => lo <= val <= hi
      case Single(n) => val == n
    }
  }

  function Nth(min: int, step: nat, k: nat): int {
    min + k * step
  }

  function Show(n: nat): (s: string)
    ensures s != "" && forall c :: c in s ==> IsDigit(c)
  {
    var last := ['0' + (n % 10) as char];
    if n < 10 then last else Show(n / 10) + last
  }

  /** A field: the union of its atoms. */
  datatype Field = Field(atoms: seq<Atom>) {
    predicate Fits() {
      atoms != [] && forall a :: a in atoms ==> a.Fits()
    }

    function Print(): string {
      Join(PrintAll(atoms), ',')
    }

    ghost predicate Denotes(min: int, val: int) {
      exists a :: a in atoms && a.Denotes(min, val)
    }
  }

  function PrintAll(atoms: seq<Atom>): (parts: seq<string>)
    ensures |parts| == |atoms| && forall i :: 0 <= i < |atoms| ==> parts[i] == atoms[i].Print()
  {
    if atoms == [] then [] else [atoms[0].Print()] + PrintAll(atoms[1..])
  }

  /** The words with a gap before each and one after the last. */
  function Interleave(words: seq<string>, gaps: seq<string>): string
    requires |gaps| == |words| + 1
  {
    if words == [] then gaps[0] else gaps[0] + (words[0] + Interleave(words[1..], gaps[1..]))
  }

  datatype Schedule = Schedule(minute: Field, hour: Field, day: Field, month: Field, weekday: Field) {
    predicate Fits() {
      minute.Fits() && hour.Fits() && day.Fits() && month.Fits() && weekday.Fits()
    }

    /** All five fields must agree; Sunday is day 0 or day 7. */
    ghost predicate Includes(t: Time) {
      && minute.Denotes(0, t.minute) && hour.Denotes(0, t.hour)
      && day.Denotes(1, t.day) && month.Denotes(1, t.month)
      && (weekday.Denotes(0, t.weekday) || (t.weekday == 0 && weekday.Denotes(0, 7)))
    }

    function Words(): seq<string> {
      [minute.Print(), hour.Print(), day.Print(), month.Print(), weekday.Print()]
    }

    /** The five fields with spaces around them. */
    function Print(gaps: seq<string>): string
      requires |gaps| == 6
    {
      Interleave(Words(), gaps)
    }
  }

  // Numbers

  lemma {:induction false} ValueOfShow(n: nat)
    ensures Value(Show(n)) == n
    decreases n
  {
    if n >= 10 {
      ValueOfShow(n / 10);
      assert Show(n)[..|Show(n)| - 1] == Show(n / 10);
    }
  }

  lemma AtoiOfShow(n: nat)
    requires n <= MAX_INT
    ensures Atoi(Show(n)) == Some(n)
  {
    ValueOfShow(n);
    assert IsDigit(Show(n)[0]);
  }

  lemma NoDigitIs(n: nat, c: char)
    requires !IsDigit(c)
    ensures c !in Show(n)
  {
  }

  lemma StepMeans(n: nat, min: int, val: int)
    requires n > 0 && val >= min
    ensures (val - min) % n == 0 <==> exists k: nat :: val == Nth(min, n, k)
  {
    if (val - min) % n == 0 {
      assert val == Nth(min, n, (val - min) / n);
    }
    forall k: nat | val == Nth(min, n, k) ensures (val - min) % n == 0 {
      DivMod(n, k, 0);
    }
  }

  // Fields

  lemma AtomText(a: Atom)
    ensures IsWord(a.Print()) && ',' !in a.Print()
  {
  }

  /** An atom matches exactly the values it stands for. */
  lemma AtomMatches(a: Atom, min: int, max: int, val: int)
    requires a.Fits() && min <= val
    ensures MatchPart(a.Print(), val, min, max) <==> a.Denotes(min, val)
  {
    AtomText(a);
    match a
    case Star =>
    case Step(n) =>
      AtoiOfShow(n);
      assert a.Print()[2..] == Show(n);
      if n > 0 {
        StepMeans(n, min, val);
      }
    case Range(lo, hi) =>
      AtoiOfShow(lo);
      AtoiOfShow(hi);
      NoDigitIs(lo, '-');
      NoDigitIs(hi, '-');
      SplitPrefix(Show(lo), '-', Show(hi));
      SplitSingle(Show(hi), '-');
      assert IsDigit(a.Print()[0]);
      assert a.Print()[|Show(lo)|] == '-';
    case Single(n) =>
      AtoiOfShow(n);
      NoDigitIs(n, '-');
      assert IsDigit(a.Print()[0]);
  }

  lemma {:induction false} JoinText(parts: seq<string>)
    requires parts != [] && forall p :: p in parts ==> IsWord(p)
    ensures IsWord(Join(parts, ','))
    decreases |parts|
  {
    assert IsWord(parts[0]);
    if |parts| > 1 {
      JoinText(parts[1..]);
    }
  }

  lemma FieldText(f: Field)
    requires f.atoms != []
    ensures IsWord(f.Print())
  {
    forall a | a in f.atoms {
      AtomText(a);
    }
    JoinText(PrintAll(f.atoms));
  }

  /** A printed field matches exactly the values it stands for. */
  lemma FieldMatches(f: Field, min: int, max: int, val: int)
    requires f.Fits() && min <= val
    ensures MatchPart(f.Print(), val, min, max) <==> f.Denotes(min, val)
  {
    var parts := PrintAll(f.atoms);
    forall i | 0 <= i < |f.atoms|
      ensures ',' !in parts[i] && (MatchPart(parts[i], val, min, max) <==> f.atoms[i].Denotes(min, val))
    {
      AtomText(f.atoms[i]);
      AtomMatches(f.atoms[i], min, max, val);
    }
    if |f.atoms| > 1 {
      SplitJoin(parts, ',');
      assert f.Print()[|parts[0]|] == ',';
    }
  }

  lemma {:induction false} SkipGap(gap: string, s: string)
    requires IsGap(gap)
    ensures Fields(gap + s) == Fields(s)
    decreases |gap|
  {
    if gap == "" {
      assert gap + s == s;
    } else {
      SkipGap(gap[1..], s);
      assert (gap + s)[1..] == gap[1..] + s;
    }
  }

  lemma {:induction false} LengthOfWord(word: string, s: string)
    requires forall c :: c in word ==> !IsSpace(c)
    requires s == "" || IsSpace(s[0])
    ensures WordLength(word + s) == |word|
    decreases |word|
  {
    if word == "" {
      assert word + s == s;
    } else {
      LengthOfWord(word[1..], s);
      assert (word + s)[1..] == word[1..] + s;
      assert (word + s)[0] == word[0];
    }
  }

  lemma TakeWord(word: string, s: string)
    requires IsWord(word)
    requires s == "" || IsSpace(s[0])
    ensures Fields(word + s) == [word] + Fields(s)
  {
    LengthOfWord(word, s);
    assert (word + s)[0] == word[0];
    assert (word + s)[..|word|] == word && (word + s)[|word|..] == s;
  }

  ghost predicate AreGaps(gaps: seq<string>) {
    && |gaps| == 6
    && (forall i :: 0 <= i < 6 ==> IsGap(gaps[i]))
    && forall i :: 1 <= i < 5 ==> gaps[i] != ""
  }

  lemma {:induction false} FieldsOfWords(words: seq<string>, gaps: seq<string>)
    requires |gaps| == |words| + 1
    requires forall i :: 0 <= i < |words| ==> IsWord(words[i])
    requires forall i :: 0 <= i < |gaps| ==> IsGap(gaps[i])
    requires forall i :: 1 <= i < |words| ==> gaps[i] != ""
    ensures Fields(Interleave(words, gaps)) == words
    ensures words != [] && gaps[0] != "" ==> IsSpace(Interleave(words, gaps)[0])
    decreases |words|
  {
    if words == [] {
      SkipGap(gaps[0], "");
      assert gaps[0] + "" == gaps[0];
    } else {
      var rest := Interleave(words[1..], gaps[1..]);
      FieldsOfWords(words[1..], gaps[1..]);
      if |words| == 1 && rest != "" {
        assert rest[0] in gaps[1];
      }
      TakeWord(words[0], rest);
      SkipGap(gaps[0], words[0] + rest);
      if gaps[0] != "" {
        assert gaps[0][0] in gaps[0];
      }
    }
  }

  /**
   * A printed schedule, however it is spaced, matches a time exactly when the time lies in what all five fields
   * stand for.
   */
  lemma MatchesWhatItSays(s: Schedule, gaps: seq<string>, t: Time)
    requires s.Fits() && AreGaps(gaps) && t.Valid()
    ensures MatchCron(s.Print(gaps), t) <==> s.Includes(t)
  {
    FieldText(s.minute);
    FieldText(s.hour);
    FieldText(s.day);
    FieldText(s.month);
    FieldText(s.weekday);
    FieldsOfWords(s.Words(), gaps);
    FieldMatches(s.minute, 0, 59, t.minute);
    FieldMatches(s.hour, 0, 23, t.hour);
    FieldMatches(s.day, 1, 31, t.day);
    FieldMatches(s.month, 1, 12, t.month);
    FieldMatches(s.weekday, 0, 7, t.weekday);
    FieldMatches(s.weekday, 0, 7, 7);
  }

  // Any text at all

  function Zeros(z: nat): string {
    seq(z, _ => '0')
  }

  function Size(n: int): nat {
    if n < 0 then -n else n
  }

  predicate IsSign(sign: string, n: int) {
    (n >= 0 && (sign == "" || sign == "+")) || (n <= 0 && sign == "-")
  }

  /** An optional sign and at least one decimal digit, leading zeros included, for a number of 64 bits. */
  ghost predicate Numeral(s: string, n: int) {
    && -0x8000_0000_0000_0000 <= n < 0x8000_0000_0000_0000
    && exists sign, z: nat :: IsSign(sign, n) && s == sign + (Zeros(z) + Show(Size(n)))
  }

  lemma {:induction false} ValueOfZeros(z: nat, d: string)
    requires forall c :: c in d ==> IsDigit(c)
    ensures Value(Zeros(z) + d) == Value(d)
    decreases |d|, z
  {
    var s := Zeros(z) + d;
    if d != "" {
      assert s[..|s| - 1] == Zeros(z) + d[..|d| - 1];
      ValueOfZeros(z, d[..|d| - 1]);
    } else if z > 0 {
      assert s[..|s| - 1] == Zeros(z - 1) + "" && s[|s| - 1] == '0';
      ValueOfZeros(z - 1, "");
    } else {
      assert s == "";
    }
  }

  lemma ShowMore(n: nat, last: char)
    requires n > 0 && IsDigit(last)
    ensures Show(10 * n + (last as int - '0' as int)) == Show(n) + [last]
  {
  }

  /** Digits are zeros and the number itself. */
  lemma {:induction false} DigitsShow(d: string) returns (z: nat)
    requires d != "" && forall c :: c in d ==> IsDigit(c)
    ensures d == Zeros(z) + Show(Value(d))
    decreases |d|
  {
    var front, last := d[..|d| - 1], d[|d| - 1];
    assert IsDigit(last) && d == front + [last];
    if front == "" {
      z := 0;
      assert Value(d) == last as int - '0' as int;
    } else {
      z := DigitsShow(front);
      if Value(front) == 0 {
        assert front == Zeros(z + 1);
        z := z + 1;
      } else {
        ShowMore(Value(front), last);
      }
    }
  }

  lemma WrittenDigits(z: nat, size: nat)
    ensures var digits := Zeros(z) + Show(size);
            digits != "" && (forall c :: c in digits ==> IsDigit(c)) && Value(digits) == size
  {
    ValueOfShow(size);
    ValueOfZeros(z, Show(size));
  }

  lemma SignIsRead(digits: string)
    requires digits != "" && IsDigit(digits[0])
    ensures Atoi(digits) == Atoi("+" + digits) == Signed(false, digits) && Atoi("-" + digits) == Signed(true, digits)
  {
    assert ("+" + digits)[1..] == digits && ("-" + digits)[1..] == digits;
  }

  lemma WrittenIsRead(sign: string, digits: string, n: int)
    requires digits != "" && (forall c :: c in digits ==> IsDigit(c)) && Value(digits) == Size(n)
    requires IsSign(sign, n) && MIN_INT <= n <= MAX_INT
    ensures Atoi(sign + digits) == Some(n)
  {
    assert digits[0] in digits;
    SignIsRead(digits);
    if sign == "" {
      assert sign + digits == digits;
    }
  }

  lemma ReadIsWritten(s: string, n: int)
    requires Atoi(s) == Some(n)
    ensures Numeral(s, n)
  {
    if s[0] == '+' || s[0] == '-' {
      var z := DigitsShow(s[1..]);
      assert s == [s[0]] + s[1..];
      assert IsSign([s[0]], n);
    } else {
      var z := DigitsShow(s);
      assert IsSign("", n) && s == "" + s;
    }
  }

  /** Numbers are read exactly as they are written. */
  lemma AtoiIff(s: string, n: int)
    ensures Atoi(s) == Some(n) <==> Numeral(s, n)
  {
    if Atoi(s) == Some(n) {
      ReadIsWritten(s, n);
    }
    if Numeral(s, n) {
      var sign, z: nat :| IsSign(sign, n) && s == sign + (Zeros(z) + Show(Size(n)));
      WrittenDigits(z, Size(n));
      WrittenIsRead(sign, Zeros(z) + Show(Size(n)), n);
    }
  }

  ghost predicate StepSays(part: string, min: int, val: int) {
    exists q, step :: part == "*/" + q && Numeral(q, step) && step > 0 && exists k: nat :: val == Nth(min, step, k)
  }

  ghost predicate RangeSays(part: string, val: int) {
    exists a, b, lo, hi :: part == a + "-" + b && '-' !in a && '-' !in b && Numeral(a, lo) && Numeral(b, hi) &&
      lo <= val <= hi
  }

  /** What a part without commas says of a value that counts from `min`. */
  ghost predicate PartSays(part: string, min: int, val: int) {
    part == "*" || StepSays(part, min, val) || RangeSays(part, val) || ('-' !in part && Numeral(part, val))
  }

  lemma NumeralText(s: string, n: int)
    requires Numeral(s, n)
    ensures s != "" && s[0] != '*'
  {
    AtoiIff(s, n);
    assert s[0] in s;
  }

  lemma StepMatchesIff(part: string, val: int, min: int)
    requires "*/" <= part && min <= val
    ensures MatchStep(part, val, min) <==> StepSays(part, min, val)
  {
    var q := part[2..];
    assert part == "*/" + q;
    if MatchStep(part, val, min) {
      AtoiIff(q, Atoi(q).value);
      StepMeans(Atoi(q).value, min, val);
    }
    if StepSays(part, min, val) {
      var r, step :| part == "*/" + r && Numeral(r, step) && step > 0 && exists k: nat :: val == Nth(min, step, k);
      assert r == q;
      AtoiIff(q, step);
      StepMeans(step, min, val);
    }
  }

  lemma RangeMatchesIff(part: string, val: int)
    ensures MatchRange(part, val) <==> RangeSays(part, val)
  {
    var parts := Split(part, '-');
    if MatchRange(part, val) {
      AtoiIff(parts[0], Atoi(parts[0]).value);
      AtoiIff(parts[1], Atoi(parts[1]).value);
      JoinSplit(part, '-');
      assert part == parts[0] + "-" + parts[1];
    }
    if RangeSays(part, val) {
      var a, b, lo, hi :| part == a + "-" + b && '-' !in a && '-' !in b && Numeral(a, lo) && Numeral(b, hi) &&
        lo <= val <= hi;
      AtoiIff(a, lo);
      AtoiIff(b, hi);
      SplitPrefix(a, '-', b);
      SplitSingle(b, '-');
    }
  }

  /** A part without commas matches exactly the values of which it says so; a part that says nothing matches none. */
  lemma PartMatchesIff(part: string, val: int, min: int, max: int)
    requires ',' !in part && min <= val
    ensures MatchPart(part, val, min, max) <==> PartSays(part, min, val)
  {
    AtoiIff(part, val);
    RangeMatchesIff(part, val);
    if Numeral(part, val) {
      NumeralText(part, val);
    }
    if "*/" <= part {
      StepMatchesIff(part, val, min);
      NoRange(part, val);
    }
  }

  lemma FirstOf(a: string, rest: string, s: string)
    requires a != "" && s == a + rest
    ensures s != "" && s[0] == a[0]
  {
  }

  /** What begins with a star is no range. */
  lemma NoRange(part: string, val: int)
    requires "*/" <= part
    ensures !RangeSays(part, val)
  {
    if RangeSays(part, val) {
      var a, b, lo, hi :| part == a + "-" + b && '-' !in a && '-' !in b && Numeral(a, lo) && Numeral(b, hi) &&
        lo <= val <= hi;
      NumeralText(a, lo);
      assert part == a + ("-" + b);
      FirstOf(a, "-" + b, part);
    }
  }

  /** A field says so of a value when one of its parts does. */
  ghost predicate FieldSays(field: string, min: int, val: int) {
    exists part :: part in Split(field, ',') && PartSays(part, min, val)
  }

  lemma FieldMatchesIff(field: string, val: int, min: int, max: int)
    requires min <= val
    ensures MatchPart(field, val, min, max) <==> FieldSays(field, min, val)
  {
    forall part | part in Split(field, ',') ensures MatchPart(part, val, min, max) <==> PartSays(part, min, val) {
      PartMatchesIff(part, val, min, max);
    }
    if ',' !in field {
      SplitSingle(field, ',');
      PartMatchesIff(field, val, min, max);
    }
  }

  /** Words with spaces between them, and perhaps around them. */
  ghost predicate Spaced(words: seq<string>, gaps: seq<string>) {
    && |gaps| == |words| + 1
    && (forall i :: 0 <= i < |words| ==> IsWord(words[i]))
    && (forall i :: 0 <= i < |gaps| ==> IsGap(gaps[i]))
    && forall i :: 1 <= i < |words| ==> gaps[i] != ""
  }

  lemma WidenGap(words: seq<string>, gaps: seq<string>, c: char)
    requires Spaced(words, gaps) && IsSpace(c)
    ensures Spaced(words, [[c] + gaps[0]] + gaps[1..])
    ensures Interleave(words, [[c] + gaps[0]] + gaps[1..]) == [c] + Interleave(words, gaps)
  {
    var wider := [[c] + gaps[0]] + gaps[1..];
    assert wider[1..] == gaps[1..];
    assert forall d :: d in wider[0] ==> d == c || d in gaps[0];
  }

  lemma AddWord(word: string, words: seq<string>, gaps: seq<string>)
    requires Spaced(words, gaps) && IsWord(word) && (words != [] ==> gaps[0] != "")
    ensures Spaced([word] + words, [""] + gaps)
    ensures Interleave([word] + words, [""] + gaps) == word + Interleave(words, gaps)
  {
    assert ([word] + words)[1..] == words && ([""] + gaps)[1..] == gaps;
  }

  /** Every text is the words that are found in it, with the spaces between them. */
  lemma {:induction false} WordsFound(s: string) returns (gaps: seq<string>)
    ensures Spaced(Fields(s), gaps) && s == Interleave(Fields(s), gaps)
    ensures s != "" && !IsSpace(s[0]) ==> gaps[0] == ""
    ensures s != "" && IsSpace(s[0]) ==> gaps[0] != ""
    decreases |s|
  {
    if s == "" {
      gaps := [""];
    } else if IsSpace(s[0]) {
      var rest := WordsFound(s[1..]);
      gaps := [[s[0]] + rest[0]] + rest[1..];
      assert s == [s[0]] + s[1..];
      WidenGap(Fields(s), rest, s[0]);
    } else {
      var n := WordLength(s);
      var rest := WordsFound(s[n..]);
      gaps := [""] + rest;
      assert s == s[..n] + s[n..];
      AddWord(s[..n], Fields(s[n..]), rest);
    }
  }

  /** The text is five words, and all of them say so of the time; Sunday is day 0 or day 7. */
  ghost predicate TextSays(text: string, words: seq<string>, gaps: seq<string>, t: Time) {
    && |words| == 5 && Spaced(words, gaps) && text == Interleave(words, gaps)
    && FieldSays(words[0], 0, t.minute) && FieldSays(words[1], 0, t.hour)
    && FieldSays(words[2], 1, t.day) && FieldSays(words[3], 1, t.month)
    && (FieldSays(words[4], 0, t.weekday) || (t.weekday == 0 && FieldSays(words[4], 0, 7)))
  }

  lemma WordsMatchIff(words: seq<string>, t: Time)
    requires t.Valid() && |words| == 5
    ensures MatchPart(words[0], t.minute, 0, 59) <==> FieldSays(words[0], 0, t.minute)
    ensures MatchPart(words[1], t.hour, 0, 23) <==> FieldSays(words[1], 0, t.hour)
    ensures MatchPart(words[2], t.day, 1, 31) <==> FieldSays(words[2], 1, t.day)
    ensures MatchPart(words[3], t.month, 1, 12) <==> FieldSays(words[3], 1, t.month)
    ensures MatchDow(words[4], t.weekday) <==>
            FieldSays(words[4], 0, t.weekday) || (t.weekday == 0 && FieldSays(words[4], 0, 7))
  {
    FieldMatchesIff(words[0], t.minute, 0, 59);
    FieldMatchesIff(words[1], t.hour, 0, 23);
    FieldMatchesIff(words[2], t.day, 1, 31);
    FieldMatchesIff(words[3], t.month, 1, 12);
    FieldMatchesIff(words[4], t.weekday, 0, 7);
    FieldMatchesIff(words[4], 7, 0, 7);
  }

  /** Any text matches a time exactly when it is five words that all say so of the time. */
  lemma TextMatchesIff(text: string, t: Time)
    requires t.Valid()
    ensures MatchCron(text, t) <==> exists words, gaps :: TextSays(text, words, gaps, t)
  {
    if MatchCron(text, t) {
      var gaps := WordsFound(text);
      WordsMatchIff(Fields(text), t);
      assert TextSays(text, Fields(text), gaps, t);
    }
    if words, gaps :| TextSays(text, words, gaps, t) {
      FieldsOfWords(words, gaps);
      WordsMatchIff(words, t);
    }
  }
}
