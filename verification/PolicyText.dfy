/** The text of a retention policy: ParseExpungePolicy, parseASCIIDuration and
Operand of internal/db/retention.go. */
module PolicyText {
  import opened Prelude
  import opened Retention

  const INT64 := 0x8000_0000_0000_0000

  // ----- canonical decimals -----

  predicate IsDigit(ch: char) { '0' <= ch <= '9' }

  predicate IsLower(ch: char) { 'a' <= ch <= 'z' }

  predicate AllDigits(s: string) { forall i :: 0 <= i < |s| ==> IsDigit(s[i]) }

  // A decimal without sign, space or leading zero.
  predicate Canonical(s: string) { s != "" && AllDigits(s) && (s[0] == '0' ==> |s| == 1) }

  function Decimal(n: nat): string {
    var digit := [('0' as int + n % 10) as char];
    if n < 10 then digit else Decimal(n / 10) + digit
  }

  function Value(s: string): nat
    requires AllDigits(s)
  {
    if s == "" then 0 else Value(s[..|s| - 1]) * 10 + (s[|s| - 1] as int - '0' as int)
  }

  method CanonicalUnsigned(value: string) returns (ok: bool)
    ensures ok == Canonical(value)
  {
    if value == "0" { return true; }
    if value == "" || value[0] == '0' { return false; }
    var i := 0;
    while i < |value|
      invariant 0 <= i <= |value| && AllDigits(value[..i])
    {
      if value[i] < '0' || value[i] > '9' { return false; }
      i := i + 1;
    }
    assert value[..|value|] == value;
    return true;
  }

  lemma {:induction false} DecimalCanonical(n: nat)
    ensures Canonical(Decimal(n)) && Value(Decimal(n)) == n && (Decimal(n)[0] == '0' <==> n == 0)
  {
    if n >= 10 {
      DecimalCanonical(n / 10);
      var s := Decimal(n);
      assert s[..|s| - 1] == Decimal(n / 10);
    }
  }

  // The canonical strings are exactly the decimals of the natural numbers.
  lemma {:induction false} CanonicalDecimal(s: string)
    requires Canonical(s)
    ensures Decimal(Value(s)) == s && (Value(s) == 0 <==> s == "0")
  {
    var n := |s| - 1;
    var d := s[n] as int - '0' as int;
    assert s == s[..n] + [s[n]];
    if n > 0 {
      CanonicalDecimal(s[..n]);
      assert s[..n][0] == s[0];
      assert Value(s) == Value(s[..n]) * 10 + d && Value(s) / 10 == Value(s[..n]) && Value(s) % 10 == d;
    } else {
      assert Value(s) == Value(s[..0]) * 10 + d == d;
    }
  }

  // ----- the duration grammar -----

  predicate Digits(s: string, i: nat, n: nat)
    requires n <= |s|
  {
    forall j :: i <= j < n ==> IsDigit(s[j])
  }

  // ns, us, ms, s, m or h
  predicate IsUnit(s: string, m: nat, e: nat)
    requires m <= e <= |s|
  {
    || (e == m + 2 && s[m + 1] == 's' && (s[m] == 'n' || s[m] == 'u' || s[m] == 'm'))
    || (e == m + 1 && (s[m] == 's' || s[m] == 'm' || s[m] == 'h'))
  }

  // An integer up to n without leading zero, perhaps a point and digits up to m,
  // and a unit up to e.
  predicate Shape(s: string, i: nat, n: nat, m: nat, e: nat) {
    && i < n <= m < e <= |s|
    && Digits(s, i, n) && (s[i] == '0' ==> n == i + 1)
    && (m == n || (s[n] == '.' && n + 1 < m && Digits(s, n + 1, m)))
    && IsUnit(s, m, e)
  }

  ghost predicate IsSegment(s: string, i: nat, e: nat) { exists n: nat, m: nat :: Shape(s, i, n, m, e) }

  ghost predicate IsSplit(s: string, cuts: seq<nat>, i: nat) {
    && |cuts| >= 2 && cuts[0] == i && cuts[|cuts| - 1] == |s|
    && forall k :: 0 <= k < |cuts| - 1 ==> IsSegment(s, cuts[k], cuts[k + 1])
  }

  // One or more segments make up the whole text.
  ghost predicate IsDuration(s: string) { exists cuts :: IsSplit(s, cuts, 0) }

  // ----- the lexer -----

  type Class = char -> bool

  // Where a run of characters of a class starting at i ends.
  function Reach(s: string, i: nat, c: Class): (n: nat)
    requires i <= |s|
    ensures i <= n <= |s| && (forall j :: i <= j < n ==> c(s[j])) && (n < |s| ==> !c(s[n]))
    decreases |s| - i
  {
    if i == |s| || !c(s[i]) then i else Reach(s, i + 1, c)
  }

  lemma ReachIs(s: string, i: nat, c: Class, n: nat)
    requires i <= n <= |s| && (forall j :: i <= j < n ==> c(s[j])) && (n < |s| ==> !c(s[n]))
    ensures Reach(s, i, c) == n
  {
    var m := Reach(s, i, c);
    if m < |s| && n < |s| {
      assert c(s[n]) == c(s[m]) == false;
    }
  }

  // Where the segment starting at i ends.
  function SegmentEnd(s: string, i: nat): (end: Option<nat>)
    requires i < |s|
    ensures end.Some? ==> i < end.value <= |s|
  {
    var n := Reach(s, i, IsDigit);
    var point := n < |s| && s[n] == '.';
    var m := if point then Reach(s, n + 1, IsDigit) else n;
    var u := Reach(s, m, IsLower);
    if n == i || (n - i > 1 && s[i] == '0') || (point && m == n + 1) || !IsUnit(s, m, u) then None else Some(u)
  }

  predicate Lexes(s: string, i: nat)
    requires i <= |s|
    decreases |s| - i
  {
    i == |s| || (SegmentEnd(s, i).Some? && Lexes(s, SegmentEnd(s, i).value))
  }

  // What the standard library makes of a text that passed the lexer: a number of
  // nanoseconds, or an error.
  type Verdict = string -> Option<int>

  function DurationOf(value: string, verdict: Verdict): Option<int> {
    if value == "" || !Lexes(value, 0) || verdict(value).None? || verdict(value).value <= 0 then None
        else verdict(value)
  }

  // Step over a run of characters of a class.
  method Scan(value: string, start: nat, c: Class) returns (i: nat)
    requires start <= |value|
    ensures i == Reach(value, start, c)
  {
    i := start;
    while i < |value| && c(value[i])
      invariant start <= i <= |value| && forall j :: start <= j < i ==> c(value[j])
    {
      i := i + 1;
    }
    ReachIs(value, start, c, i);
  }

  // One turn of the lexer.
  method ScanSegment(value: string, start: nat) returns (end: Option<nat>)
    requires start < |value|
    ensures end == SegmentEnd(value, start)
  {
    var integerEnd := Scan(value, start, IsDigit);
    if integerEnd == start { return None; }
    if integerEnd - start > 1 && value[start] == '0' { return None; }
    var unitStart := integerEnd;
    if integerEnd < |value| && value[integerEnd] == '.' {
      unitStart := Scan(value, integerEnd + 1, IsDigit);
      if unitStart == integerEnd + 1 { return None; }
    }
    var unitEnd := Scan(value, unitStart, IsLower);
    if !IsUnit(value, unitStart, unitEnd) { return None; }
    return Some(unitEnd);
  }

  method ParseASCIIDuration(value: string, verdict: Verdict) returns (d: Option<int>)
    ensures d == DurationOf(value, verdict)
  {
    if value == "" { return None; }
    for i := 0 to |value|
      invariant forall j :: 0 <= j < i ==> value[j] <= 0x7f as char
    {
      if value[i] > 0x7f as char {
        LexesAscii(value, 0, i);
        return None;
      }
    }
    var i := 0;
    while i < |value|
      invariant 0 <= i <= |value|
      invariant Lexes(value, 0) == Lexes(value, i)
    {
      var end := ScanSegment(value, i);
      if end.None? { return None; }
      i := end.value;
    }
    d := verdict(value);
    if d.None? || d.value <= 0 { return None; }
  }

  lemma {:induction false} LexesAscii(s: string, i: nat, at: nat)
    requires i <= at < |s| && s[at] > 0x7f as char
    ensures !Lexes(s, i)
    decreases |s| - i
  {
    if SegmentEnd(s, i).Some? && at >= SegmentEnd(s, i).value {
      LexesAscii(s, SegmentEnd(s, i).value, at);
    }
  }

  // ----- the lexer accepts exactly the grammar -----

  lemma SegmentFits(s: string, i: nat)
    requires i < |s| && SegmentEnd(s, i).Some?
    ensures IsSegment(s, i, SegmentEnd(s, i).value)
  {
    var n := Reach(s, i, IsDigit);
    var m := if n < |s| && s[n] == '.' then Reach(s, n + 1, IsDigit) else n;
    assert Shape(s, i, n, m, SegmentEnd(s, i).value);
  }

  lemma SegmentLexes(s: string, i: nat, e: nat)
    requires IsSegment(s, i, e) && (e < |s| ==> IsDigit(s[e]))
    ensures i < |s| && SegmentEnd(s, i) == Some(e)
  {
    var n: nat, m: nat :| Shape(s, i, n, m, e);
    ReachIs(s, i, IsDigit, n);
    if m > n { ReachIs(s, n + 1, IsDigit, m); }
    ReachIs(s, m, IsLower, e);
  }

  lemma {:induction false} LexedIsSplit(s: string, i: nat) returns (cuts: seq<nat>)
    requires i < |s| && Lexes(s, i)
    ensures IsSplit(s, cuts, i)
    decreases |s| - i
  {
    var end := SegmentEnd(s, i).value;
    SegmentFits(s, i);
    if end == |s| {
      cuts := [i, end];
    } else {
      var rest := LexedIsSplit(s, end);
      cuts := [i] + rest;
      forall k | 0 <= k < |cuts| - 1 ensures IsSegment(s, cuts[k], cuts[k + 1]) {
        if k > 0 { assert cuts[k] == rest[k - 1] && cuts[k + 1] == rest[k]; }
      }
    }
  }

  lemma {:induction false} SplitLexes(s: string, cuts: seq<nat>, k: nat)
    requires IsSplit(s, cuts, 0) && k < |cuts|
    ensures cuts[k] <= |s| && Lexes(s, cuts[k])
    ensures k < |cuts| - 1 ==> cuts[k] < |s| && IsDigit(s[cuts[k]])
    decreases |cuts| - k
  {
    if k < |cuts| - 1 {
      SplitLexes(s, cuts, k + 1);
      assert IsSegment(s, cuts[k], cuts[k + 1]);
      SegmentLexes(s, cuts[k], cuts[k + 1]);
    }
  }

  // The lexer accepts a text exactly when it is one or more segments.
  lemma LexerMeetsGrammar(s: string)
    ensures s != "" && Lexes(s, 0) <==> IsDuration(s)
  {
    if s != "" && Lexes(s, 0) {
      var cuts := LexedIsSplit(s, 0);
    }
    if IsDuration(s) {
      var cuts :| IsSplit(s, cuts, 0);
      SplitLexes(s, cuts, 0);
    }
  }

  // ----- policies -----

  // The number a canonical decimal stands for, if a signed 64-bit integer holds it.
  function ParseInt(s: string): Option<int>
    requires Canonical(s)
  {
    if Value(s) < INT64 then Some(Value(s)) else None
  }

  function ParseDays(operand: string): Option<int> {
    if operand == "" || operand[|operand| - 1] != 'd' then None
    else
      var days := operand[..|operand| - 1];
      if !Canonical(days) || days == "0" || ParseInt(days).None? || ParseInt(days).value > MAX_AGE_DAYS then None
      else ParseInt(days)
  }

  function ParseCount(operand: string): Option<int> {
    if Canonical(operand) then ParseInt(operand) else None
  }

  // Where the first colon is, or the length of a text without one.
  function Colon(s: string): (n: nat)
    ensures n <= |s| && (forall i :: 0 <= i < n ==> s[i] != ':') && (n < |s| ==> s[n] == ':')
  {
    if s == "" || s[0] == ':' then 0 else 1 + Colon(s[1..])
  }

  function ParseOperand(kind: string, operand: string, verdict: Verdict): Option<Policy> {
    if kind == "age" then
      var days := ParseDays(operand);
      if days.Some? then Some(AgeDays(days.value))
      else
        var d := DurationOf(operand, verdict);
        if d.Some? then Some(Age(d.value)) else None
    else if kind == "count" || kind == "size" then
      var n := ParseCount(operand);
      if n.None? then None else Some(if kind == "count" then Count(n.value) else Size(n.value))
    else None
  }

  function ParsePolicy(value: string, verdict: Verdict): Option<Policy> {
    if value == "never" then Some(Never)
    else
      var n := Colon(value);
      if n == |value| || n + 1 == |value| then None
      else ParseOperand(value[..n], value[n + 1..], verdict)
  }

  // The policies that have a canonical text.
  predicate Printable(p: Policy) {
    match p
    case Never => true
    case AgeDays(days) => 1 <= days <= MAX_AGE_DAYS
    case Age(_) => false
    case Count(n) => 0 <= n < INT64
    case Size(n) => 0 <= n < INT64
  }

  function Kind(p: Policy): string {
    match p
    case Never => "never"
    case AgeDays(_) => "age"
    case Age(_) => "age"
    case Count(_) => "count"
    case Size(_) => "size"
  }

  function Operand(p: Policy): string
    requires Printable(p)
  {
    match p
    case Never => ""
    case AgeDays(days) => Decimal(days) + "d"
    case Count(n) => Decimal(n)
    case Size(n) => Decimal(n)
  }

  function Print(p: Policy): string
    requires Printable(p)
  {
    if p.Never? then "never" else Kind(p) + ":" + Operand(p)
  }

  // Reading back what is printed gives the policy.
  lemma OperandParses(p: Policy, verdict: Verdict)
    requires Printable(p) && !p.Never?
    ensures Operand(p) != "" && ParseOperand(Kind(p), Operand(p), verdict) == Some(p)
  {
    match p
    case AgeDays(days) =>
      DecimalCanonical(days);
      assert (Decimal(days) + "d")[..|Decimal(days)|] == Decimal(days);
    case Count(n) => DecimalCanonical(n);
    case Size(n) => DecimalCanonical(n);
  }

  lemma ColonAfter(kind: string, operand: string)
    requires forall i :: 0 <= i < |kind| ==> kind[i] != ':'
    ensures
      var s := kind + ":" + operand;
      Colon(s) == |kind| && s[..|kind|] == kind && s[|kind| + 1..] == operand
  {
    var s := kind + ":" + operand;
    assert s[|kind|] == ':' && forall i :: 0 <= i < |kind| ==> s[i] == kind[i];
    assert Colon(s) >= |kind|;
  }

  lemma PrintParses(p: Policy, verdict: Verdict)
    requires Printable(p)
    ensures ParsePolicy(Print(p), verdict) == Some(p)
  {
    if !p.Never? {
      OperandParses(p, verdict);
      ColonAfter(Kind(p), Operand(p));
      assert Print(p)[0] == Kind(p)[0] != 'n';
    }
  }

  // A text that parses to such a policy is its canonical text.
  lemma OperandCanonical(kind: string, operand: string, verdict: Verdict)
    requires ParseOperand(kind, operand, verdict).Some? && !ParseOperand(kind, operand, verdict).value.Age?
    ensures
      var p := ParseOperand(kind, operand, verdict).value;
      Printable(p) && !p.Never? && Kind(p) == kind && Operand(p) == operand
  {
    if kind == "age" {
      var days := operand[..|operand| - 1];
      CanonicalDecimal(days);
      assert operand == days + "d";
    } else {
      CanonicalDecimal(operand);
    }
  }

  lemma ParsePrints(value: string, verdict: Verdict)
    requires ParsePolicy(value, verdict).Some? && !ParsePolicy(value, verdict).value.Age?
    ensures Printable(ParsePolicy(value, verdict).value) && Print(ParsePolicy(value, verdict).value) == value
  {
    if value != "never" {
      var n := Colon(value);
      OperandCanonical(value[..n], value[n + 1..], verdict);
      assert value == value[..n] + ":" + value[n + 1..];
    }
  }

  // A count is accepted exactly when it is the decimal of a natural number below 2^63.
  lemma CountsAccepted(operand: string)
    ensures ParseCount(operand).Some? <==> exists n: nat :: n < INT64 && Decimal(n) == operand
  {
    if ParseCount(operand).Some? {
      CanonicalDecimal(operand);
    }
    if exists n: nat :: n < INT64 && Decimal(n) == operand {
      var n: nat :| n < INT64 && Decimal(n) == operand;
      DecimalCanonical(n);
    }
  }

  lemma DurationsEndInUnit(s: string)
    requires s != "" && Lexes(s, 0)
    ensures s[|s| - 1] != 'd'
  {
    var cuts := LexedIsSplit(s, 0);
    var k := |cuts| - 2;
    assert IsSegment(s, cuts[k], cuts[k + 1]);
    var n: nat, m: nat :| Shape(s, cuts[k], n, m, |s|);
  }

  // Days end in a letter that ends no duration, so too many days are refused, not
  // read as something else.
  lemma DaysAreNoDuration(operand: string, verdict: Verdict)
    ensures operand != "" && operand[|operand| - 1] == 'd' ==> DurationOf(operand, verdict).None?
  {
    if operand != "" && Lexes(operand, 0) {
      DurationsEndInUnit(operand);
    }
  }

  // The days accepted fit 64-bit nanoseconds, and a day more would not.
  lemma DaysFit(operand: string)
    ensures ParseDays(operand).Some? ==> 0 < ParseDays(operand).value * DAY < INT64
    ensures (MAX_AGE_DAYS + 1) * DAY >= INT64
  {
    if ParseDays(operand).Some? {
      CanonicalDecimal(operand[..|operand| - 1]);
    }
  }

  // A policy that was parsed is never refused for its value, and an age policy
  // always has a cutoff.
  lemma ParsedIsServed(value: string, verdict: Verdict, nowNs: int, disk: Disk)
    requires ParsePolicy(value, verdict).Some?
    ensures
      var p := ParsePolicy(value, verdict).value;
      && Refusal(p, nowNs, disk) != Some(NegativeValue)
      && (p.Age? || p.AgeDays? ==> AgeCutoff(p, nowNs).Some?)
  {
    if !ParsePolicy(value, verdict).value.Age? {
      ParsePrints(value, verdict);
    }
  }

  // An age given as a duration is read as exactly the nanoseconds the standard library
  // makes of it, if the text is of the grammar and they are positive.
  lemma AgeDurations(text: string, verdict: Verdict, ns: int)
    requires text != ""
    ensures ParsePolicy("age:" + text, verdict) == Some(Age(ns)) <==>
            IsDuration(text) && verdict(text) == Some(ns) && ns > 0
  {
    ColonAfter("age", text);
    assert "age" + ":" + text == "age:" + text && ("age:" + text)[0] != "never"[0];
    LexerMeetsGrammar(text);
    if IsDuration(text) {
      DurationsEndInUnit(text);
    }
  }
}
