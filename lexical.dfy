/** Text primitives shared by the coordinate codec and the response parsers:
    an Option type, models of the Python built-ins int(), float() and str()
    on the inputs the harness gives them, and the leftmost search that
    re.search performs for a pattern. */
module Lexical {

  datatype Option<T> = None | Some(value: T)

  /** ASCII decimal digit (what [0-9] matches; \d is modelled by the same class). */
  predicate IsDigit(c: char) { '0' <= c <= '9' }

  predicate AllDigits(s: string) { forall i :: 0 <= i < |s| ==> IsDigit(s[i]) }

  /** Python's str.isspace(): the characters int() strips and \s matches in a str pattern. */
  predicate IsSpace(c: char) {
    || '\t' <= c <= '\r'
    || '\U{1C}' <= c <= '\U{1F}'
    || c == ' ' || c == '\U{85}' || c == '\U{A0}' || c == '\U{1680}'
    || '\U{2000}' <= c <= '\U{200A}'
    || c == '\U{2028}' || c == '\U{2029}' || c == '\U{202F}' || c == '\U{205F}' || c == '\U{3000}'
  }

  function DigitValue(c: char): nat
    requires IsDigit(c)
  {
    c as int - '0' as int
  }

  function DigitChar(d: nat): (c: char)
    requires d < 10
    ensures IsDigit(c) && DigitValue(c) == d
  {
    ('0' as int + d) as char
  }

  /** The value of a string of decimal digits, most significant first. */
  function DigitsValue(s: string): nat
    requires AllDigits(s)
  {
    if s == [] then 0 else DigitsValue(s[..|s| - 1]) * 10 + DigitValue(s[|s| - 1])
  }

  /** Python's str() of a non-negative int: its decimal digits, no leading zero. */
  function Decimal(n: nat): (r: string)
    ensures |r| > 0 && AllDigits(r)
    ensures r[0] == '0' ==> n == 0
    ensures DigitsValue(r) == n
    ensures n < 10 <==> |r| == 1
    ensures 10 <= n < 100 <==> |r| == 2
  {
    if n < 10 then [DigitChar(n)]
    else
      var r := Decimal(n / 10) + [DigitChar(n % 10)];
      assert r[..|r| - 1] == Decimal(n / 10);
      r
  }

  /** First index of c in s, as str.index / str.find. */
  function IndexOf(s: string, c: char): (r: Option<nat>)
    ensures r.Some? ==> r.value < |s| && s[r.value] == c && c !in s[..r.value]
    ensures r.None? <==> c !in s
  {
    if s == [] then None
    else if s[0] == c then Some(0)
    else match IndexOf(s[1..], c)
      case None => None
      case Some(k) =>
        assert s[..k + 1] == [s[0]] + s[1..][..k];
        Some(k + 1)
  }

  /* ---------------------------------------------------------------- int() */

  function TrimLeft(s: string): (r: string)
    ensures |r| <= |s|
    ensures r != [] ==> !IsSpace(r[0])
  {
    if s != [] && IsSpace(s[0]) then TrimLeft(s[1..]) else s
  }

  function TrimRight(s: string): (r: string)
    ensures |r| <= |s|
    ensures r != [] ==> !IsSpace(r[|r| - 1])
  {
    if s != [] && IsSpace(s[|s| - 1]) then TrimRight(s[..|s| - 1]) else s
  }

  /** str.strip() with no argument. */
  function Strip(s: string): string { TrimRight(TrimLeft(s)) }

  /** The digit part int() accepts: digits, with single underscores between digits. */
  predicate IsGroupedDigits(b: string) {
    && |b| > 0 && IsDigit(b[0]) && IsDigit(b[|b| - 1])
    && (forall i :: 0 <= i < |b| ==> IsDigit(b[i]) || b[i] == '_')
    && NoDoubleUnderscore(b)
  }

  predicate NoDoubleUnderscore(b: string) {
    |b| < 2 || (!(b[0] == '_' && b[1] == '_') && NoDoubleUnderscore(b[1..]))
  }

  function DropUnderscores(b: string): (r: string)
    requires forall i :: 0 <= i < |b| ==> IsDigit(b[i]) || b[i] == '_'
    ensures AllDigits(r)
  {
    if b == [] then [] else (if b[0] == '_' then [] else [b[0]]) + DropUnderscores(b[1..])
  }

  /** Python's int(s) in base 10; None stands for the ValueError it raises. */
  function ParseInt(s: string): Option<int> {
    ParseSigned(Strip(s))
  }

  /** An optional sign, then the digit groups. */
  function ParseSigned(t: string): Option<int> {
    if |t| > 0 && t[0] == '-' then
      match ParseGroups(t[1..])
      case None => None
      case Some(v) => Some(-v)
    else if |t| > 0 && t[0] == '+' then ParseGroups(t[1..])
    else ParseGroups(t)
  }

  function ParseGroups(b: string): Option<int> {
    if IsGroupedDigits(b) then Some(DigitsValue(DropUnderscores(b)) as int) else None
  }

  lemma {:induction false} TrimNoSpace(s: string)
    requires AllDigits(s)
    ensures TrimLeft(s) == s && TrimRight(s) == s
  {
  }

  lemma {:induction false} DropNoUnderscores(s: string)
    requires AllDigits(s)
    ensures DropUnderscores(s) == s && NoDoubleUnderscore(s)
  {
    if s != [] {
      DropNoUnderscores(s[1..]);
    }
  }

  /** int() of a non-empty run of digits is its value, leading zeros allowed. */
  lemma {:induction false} ParseIntOfDigits(s: string)
    requires |s| > 0 && AllDigits(s)
    ensures ParseInt(s) == Some(DigitsValue(s))
  {
    TrimNoSpace(s);
    DropNoUnderscores(s);
  }

  lemma {:induction false} StripNoSpace(s: string)
    requires s != [] && !IsSpace(s[0]) && !IsSpace(s[|s| - 1])
    ensures Strip(s) == s
  {
  }

  lemma {:induction false} ParseSignedDigits(d: string)
    requires |d| > 0 && AllDigits(d)
    ensures ParseSigned(['+'] + d) == Some(DigitsValue(d) as int)
    ensures ParseSigned(['-'] + d) == Some(-(DigitsValue(d) as int))
  {
    assert (['+'] + d)[1..] == d && (['-'] + d)[1..] == d;
    DropNoUnderscores(d);
  }

  lemma {:induction false} StripSigned(c: char, d: string)
    requires (c == '+' || c == '-') && |d| > 0 && AllDigits(d)
    ensures Strip([c] + d) == [c] + d
  {
    assert !IsSpace(c) && !IsSpace(d[|d| - 1]);
    StripNoSpace([c] + d);
  }

  /** int() takes an explicit plus sign before the digits... */
  lemma {:induction false} ParseIntPlus(d: string)
    requires |d| > 0 && AllDigits(d)
    ensures ParseInt(['+'] + d) == Some(DigitsValue(d) as int)
  {
    StripSigned('+', d);
    ParseSignedDigits(d);
  }

  /** ... and a minus sign, which negates. */
  lemma {:induction false} ParseIntMinus(d: string)
    requires |d| > 0 && AllDigits(d)
    ensures ParseInt(['-'] + d) == Some(-(DigitsValue(d) as int))
  {
    StripSigned('-', d);
    ParseSignedDigits(d);
  }

  /** int(str(n)) == n. */
  lemma {:induction false} ParseIntDecimal(n: nat)
    ensures ParseInt(Decimal(n)) == Some(n)
  {
    ParseIntOfDigits(Decimal(n));
  }

  /* -------------------------------------------------------------- float() */

  /** abs() on a real. */
  function Abs(x: real): (r: real)
    ensures r >= 0.0 && (r == x || r == -x)
  {
    if x < 0.0 then -x else x
  }

  /** The value of the decimal numeral whole.frac, exactly (no binary rounding). */
  function DecimalReal(whole: string, frac: string): (r: real)
    requires AllDigits(whole) && AllDigits(frac)
    ensures r >= 0.0
  {
    DigitsValue(whole) as real + DigitsValue(frac) as real / Pow10(|frac|) as real
  }

  function Pow10(n: nat): (r: nat)
    ensures r >= 1
  {
    if n == 0 then 1 else 10 * Pow10(n - 1)
  }

  /** Python's float(s) for a string s over [0-9.]: one optional point and at
      least one digit ("5", "5.", ".5", "5.25"); None stands for the ValueError. */
  function ParseFloatRun(s: string): (r: Option<real>)
    ensures r.Some? ==> r.value >= 0.0
    ensures r.Some? ==> |s| > 0
  {
    match IndexOf(s, '.')
    case None => if |s| > 0 && AllDigits(s) then Some(DigitsValue(s) as real) else None
    case Some(k) =>
      var whole, frac := s[..k], s[k + 1..];
      if AllDigits(whole) && AllDigits(frac) && |whole| + |frac| > 0
      then Some(DecimalReal(whole, frac)) else None
  }

  /* -------------------------------------------------------------- search */

  /** A successful match: where it starts and what its groups captured. */
  datatype Found<T> = Found(at: nat, value: T)

  /** True when a search succeeded and captured v. */
  ghost predicate Yields<T>(r: Option<Found<T>>, v: T) { r.Some? && r.value.value == v }

  /** re.search: the leftmost position at which the pattern, given as a matcher
      on the remaining text, succeeds. */
  function Search<T>(s: string, m: string -> Option<T>): (r: Option<Found<T>>)
    ensures r.Some? ==> r.value.at <= |s| && m(s[r.value.at..]) == Some(r.value.value)
    ensures r.Some? ==> forall k :: 0 <= k < r.value.at ==> m(s[k..]).None?
    ensures r.None? ==> forall k :: 0 <= k <= |s| ==> m(s[k..]).None?
    decreases |s|
  {
    match m(s)
    case Some(v) => Some(Found(0, v))
    case None =>
      if s == [] then None
      else
        var r := Search(s[1..], m);
        DropTail(s);
        match r
        case None => None
        case Some(f) => Some(Found(f.at + 1, f.value))
  }

  /** The suffixes of s after its first character are those of s[1..]. */
  lemma {:induction false} DropTail(s: string)
    requires s != []
    ensures s[0..] == s
    ensures forall k :: 1 <= k <= |s| ==> s[k..] == s[1..][k - 1..]
  {
  }

  /** The leftmost match is determined by where the pattern first succeeds. */
  lemma {:induction false} SearchAt<T>(s: string, m: string -> Option<T>, k: nat)
    requires k <= |s| && m(s[k..]).Some?
    requires forall j :: 0 <= j < k ==> m(s[j..]).None?
    ensures Search(s, m) == Some(Found(k, m(s[k..]).value))
  {
  }

  /** A match moved n characters to the right. */
  function Shift<T>(r: Option<Found<T>>, n: nat): Option<Found<T>> {
    match r
    case None => None
    case Some(f) => Some(Found(f.at + n, f.value))
  }

  /** Text on which the pattern cannot start may be skipped. */
  lemma {:induction false} SearchSkip<T>(a: string, b: string, m: string -> Option<T>)
    requires forall j :: 0 <= j < |a| ==> m((a + b)[j..]).None?
    ensures Search(a + b, m) == Shift(Search(b, m), |a|)
  {
    match Search(b, m)
    case None =>
      SearchSkipNone(a, b, m);
    case Some(f) =>
      SearchSkipSome(a, b, m, f);
  }

  lemma {:induction false} SearchSkipNone<T>(a: string, b: string, m: string -> Option<T>)
    requires forall j :: 0 <= j < |a| ==> m((a + b)[j..]).None?
    requires Search(b, m).None?
    ensures Search(a + b, m).None?
  {
    forall k | 0 <= k <= |a + b|
      ensures m((a + b)[k..]).None?
    {
      if k >= |a| {
        assert (a + b)[k..] == b[k - |a|..];
      }
    }
    SearchNone(a + b, m);
  }

  /** A search fails when the pattern fails everywhere. */
  lemma {:induction false} SearchNone<T>(s: string, m: string -> Option<T>)
    requires forall k :: 0 <= k <= |s| ==> m(s[k..]).None?
    ensures Search(s, m).None?
  {
  }

  lemma {:induction false} SearchSkipSome<T>(a: string, b: string, m: string -> Option<T>, f: Found<T>)
    requires forall j :: 0 <= j < |a| ==> m((a + b)[j..]).None?
    requires Search(b, m) == Some(f)
    ensures Search(a + b, m) == Some(Found(f.at + |a|, f.value))
  {
    var s, k := a + b, f.at + |a|;
    assert s[k..] == b[f.at..];
    forall j | |a| <= j < k
      ensures m(s[j..]).None?
    {
      assert s[j..] == b[j - |a|..];
    }
    SearchAt(s, m, k);
  }

  /** A pattern that can only start at the character c skips text free of c. */
  lemma {:induction false} SearchSkipFree<T>(a: string, b: string, m: string -> Option<T>, c: char)
    requires forall s :: m(s).Some? ==> s != [] && s[0] == c
    requires c !in a
    ensures Search(a + b, m) == Shift(Search(b, m), |a|)
  {
    forall j | 0 <= j < |a|
      ensures m((a + b)[j..]).None?
    {
      assert (a + b)[j..][0] == a[j];
    }
    SearchSkip(a, b, m);
  }

  /** A piece of text that does not begin with tag and holds tag's first
      character only at its start: no occurrence of tag starts inside it. */
  predicate Skippable(box: string, tag: string) {
    tag != [] && |tag| <= |box| && box[..|tag|] != tag && tag[0] !in box[1..]
  }

  /** A pattern that starts with tag skips a piece of text that is skippable
      for tag. */
  lemma {:induction false} SearchSkipBox<T>(box: string, b: string, m: string -> Option<T>, tag: string)
    requires forall s :: m(s).Some? ==> tag <= s
    requires Skippable(box, tag)
    ensures Search(box + b, m) == Shift(Search(b, m), |box|)
  {
    forall j | 0 <= j < |box|
      ensures m((box + b)[j..]).None?
    {
      if j == 0 {
        assert (box + b)[..|tag|] == box[..|tag|];
      } else {
        assert (box + b)[j..][0] == box[1..][j - 1];
      }
    }
    SearchSkip(box, b, m);
  }

  /** The matcher for a literal string. */
  function Literal(lit: string): string -> Option<()> {
    s => if lit <= s then Some(()) else None
  }

  /** True when lit occurs in s at position k. */
  predicate OccursAt(s: string, k: nat, lit: string) {
    k + |lit| <= |s| && s[k..k + |lit|] == lit
  }

  /** One differing character rules out an occurrence. */
  lemma {:induction false} MismatchNoOccur(s: string, k: nat, lit: string, i: nat)
    requires i < |lit| && k + i < |s| && s[k + i] != lit[i]
    ensures !OccursAt(s, k, lit)
  {
    if k + |lit| <= |s| {
      assert s[k..k + |lit|][i] == s[k + i];
    }
  }

  /** The position of an occurrence of lit in s: the first, as FindIsFirst
      shows. */
  function Find(s: string, lit: string): Option<nat> {
    match Search(s, Literal(lit))
    case None => None
    case Some(f) => Some(f.at)
  }

  /** Find returns the first occurrence, and None only when there is none. */
  lemma {:induction false} FindIsFirst(s: string, lit: string)
    ensures Find(s, lit).Some? ==> OccursAt(s, Find(s, lit).value, lit)
    ensures Find(s, lit).Some? ==> forall k :: 0 <= k < Find(s, lit).value ==> !OccursAt(s, k, lit)
    ensures Find(s, lit).None? <==> forall k :: 0 <= k <= |s| ==> !OccursAt(s, k, lit)
  {
    assert forall k :: 0 <= k <= |s| ==> (Literal(lit)(s[k..]).Some? <==> OccursAt(s, k, lit));
  }

  /** An occurrence Find returns lies inside the text. */
  lemma {:induction false} FindInside(s: string, lit: string)
    ensures Find(s, lit).Some? ==> Find(s, lit).value + |lit| <= |s|
  {
    match Search(s, Literal(lit))
    case None =>
    case Some(f) =>
      assert lit <= s[f.at..];
  }

  /** Find returns the position of an occurrence with none before it. */
  lemma {:induction false} FindAt(s: string, lit: string, k: nat)
    requires OccursAt(s, k, lit)
    requires forall j :: 0 <= j < k ==> !OccursAt(s, j, lit)
    ensures Find(s, lit) == Some(k)
  {
    FindIsFirst(s, lit);
    var v := Find(s, lit).value;
    assert !(v < k);
    assert !(k < v);
  }

  /** Text appended after the first occurrence of a literal does not move it. */
  lemma {:induction false} FindExtends(x: string, y: string, lit: string)
    requires Find(x, lit).Some?
    ensures Find(x + y, lit) == Find(x, lit)
  {
    FindIsFirst(x, lit);
    var k := Find(x, lit).value;
    assert (x + y)[k..k + |lit|] == x[k..k + |lit|];
    forall j | 0 <= j < k
      ensures !OccursAt(x + y, j, lit)
    {
      assert !OccursAt(x, j, lit);
      assert j + |lit| <= |x|;
      assert (x + y)[j..j + |lit|] == x[j..j + |lit|];
    }
    FindAt(x + y, lit, k);
  }

  /** Text at none of whose positions the literal occurs is skipped by Find. */
  lemma {:induction false} FindSkipNoOccur(a: string, b: string, lit: string)
    requires forall j :: 0 <= j < |a| ==> !OccursAt(a + b, j, lit)
    ensures Find(a + b, lit) == Offset(Find(b, lit), |a|)
  {
    forall j | 0 <= j < |a|
      ensures Literal(lit)((a + b)[j..]).None?
    {
      assert !OccursAt(a + b, j, lit);
    }
    SearchSkip(a, b, Literal(lit));
    FindShift(a + b, b, lit, |a|);
  }

  /** A position moved n characters to the right. */
  function Offset(r: Option<nat>, n: nat): Option<nat> {
    match r
    case None => None
    case Some(k) => Some(k + n)
  }

  /** A literal is found where the text begins with it. */
  lemma {:induction false} FindHere(lit: string, b: string)
    ensures Find(lit + b, lit) == Some(0)
  {
    assert Literal(lit)(lit + b) == Some(());
  }

  /** Text free of a literal's first character is skipped by Find. */
  lemma {:induction false} FindSkipFree(a: string, b: string, lit: string)
    requires lit != [] && lit[0] !in a
    ensures Find(a + b, lit) == Offset(Find(b, lit), |a|)
  {
    LiteralNotIn(a, b, lit);
    SearchSkip(a, b, Literal(lit));
    FindShift(a + b, b, lit, |a|);
  }

  /** A hit after text free of the literal's first character moves by the
      length of that text. */
  lemma {:induction false} FindAfterFreeText(a: string, y: string, lit: string, k: nat)
    requires lit != [] && lit[0] !in a && Find(y, lit) == Some(k)
    ensures Find(a + y, lit) == Some(|a| + k)
  {
    FindSkipFree(a, y, lit);
    OffsetSome(Find(y, lit), k, |a|);
  }

  lemma {:induction false} OffsetSome(r: Option<nat>, k: nat, n: nat)
    requires r == Some(k)
    ensures Offset(r, n) == Some(n + k)
  {
  }

  /** A prefix cut off again. */
  lemma {:induction false} CutPrefix(p: string, t: string)
    ensures p <= p + t && (p + t)[|p|..] == t
  {
    assert (p + t)[..|p|] == p;
  }

  /** Find follows a search that is shifted. */
  lemma {:induction false} FindShift(s: string, t: string, lit: string, n: nat)
    requires Search(s, Literal(lit)) == Shift(Search(t, Literal(lit)), n)
    ensures Find(s, lit) == Offset(Find(t, lit), n)
  {
    match Search(t, Literal(lit))
    case None =>
    case Some(f) =>
  }

  lemma {:induction false} LiteralNotIn(a: string, b: string, lit: string)
    requires lit != [] && lit[0] !in a
    ensures forall j :: 0 <= j < |a| ==> Literal(lit)((a + b)[j..]).None?
  {
    forall j | 0 <= j < |a|
      ensures Literal(lit)((a + b)[j..]).None?
    {
      assert (a + b)[j..][0] == a[j];
    }
  }

  /** A piece skippable for the literal is skipped by Find. */
  lemma {:induction false} FindSkipBox(box: string, b: string, lit: string)
    requires Skippable(box, lit)
    ensures Find(box + b, lit) == Offset(Find(b, lit), |box|)
  {
    SearchSkipBox(box, b, Literal(lit), lit);
  }

  /** lit (.*?) close with DOTALL: the text between the first occurrence of
      open and the first occurrence of close after it. If close does not
      follow the first open it follows no later one either, so re.search fails. */
  function Block(s: string, open: string, close: string): Option<string> {
    match Find(s, open)
    case None => None
    case Some(i) =>
      FindInside(s, open);
      BlockRest(s[i + |open|..], close)
  }

  /** A block is read from where its two tags are found. */
  lemma {:induction false} BlockOfFinds(s: string, open: string, close: string, i: nat, j: nat)
    requires Find(s, open) == Some(i) && i + |open| <= |s|
    requires Find(s[i + |open|..], close) == Some(j) && i + |open| + j <= |s|
    ensures Block(s, open, close) == Some(s[i + |open|..][..j])
  {
    BlockOpens(s, open, close, i);
    BlockCloses(s[i + |open|..], close, j);
  }

  lemma {:induction false} BlockOpens(s: string, open: string, close: string, i: nat)
    requires Find(s, open) == Some(i) && i + |open| <= |s|
    ensures Block(s, open, close) == BlockRest(s[i + |open|..], close)
  {
  }

  lemma {:induction false} BlockCloses(rest: string, close: string, j: nat)
    requires Find(rest, close) == Some(j) && j <= |rest|
    ensures BlockRest(rest, close) == Some(rest[..j])
  {
  }

  /** The second half of Block: the text before the first close. */
  function BlockRest(rest: string, close: string): Option<string> {
    match Find(rest, close)
    case None => None
    case Some(j) => FindInside(rest, close); Some(rest[..j])
  }

  /** Length of the longest prefix of s whose characters satisfy IsSpace. */
  function SpaceRun(s: string): (n: nat)
    ensures n <= |s| && (forall i :: 0 <= i < n ==> IsSpace(s[i])) && (n < |s| ==> !IsSpace(s[n]))
  {
    if s != [] && IsSpace(s[0]) then 1 + SpaceRun(s[1..]) else 0
  }

  /** Length of the longest prefix of s made of digits (what a greedy \d+ takes). */
  function DigitRun(s: string): (n: nat)
    ensures n <= |s| && AllDigits(s[..n]) && (n < |s| ==> !IsDigit(s[n]))
  {
    if s != [] && IsDigit(s[0]) then
      var n := 1 + DigitRun(s[1..]);
      assert s[..n] == [s[0]] + s[1..][..n - 1];
      n
    else 0
  }

  lemma {:induction false} DigitRunAll(d: string, t: string)
    requires AllDigits(d) && (t == [] || !IsDigit(t[0]))
    ensures DigitRun(d + t) == |d|
  {
    if d != [] {
      assert (d + t)[1..] == d[1..] + t;
      DigitRunAll(d[1..], t);
    }
  }
}
