/** Strings as the Go code uses them: comparison, decimal rendering and parsing, trimming and cutting. */
module Text {
  import opened Wrappers

  /** Go's `<` on strings: element by element, a proper prefix first. */
  predicate Less(a: string, b: string) {
    b != "" && (a == "" || a[0] < b[0] || (a[0] == b[0] && Less(a[1..], b[1..])))
  }

  /** `Less` is a strict total order: this clause gives irreflexivity and trichotomy. */
  lemma {:induction false} LessTrichotomy(a: string, b: string)
    ensures !Less(a, a)
    ensures Less(a, b) ==> !Less(b, a)
    ensures a == b || Less(a, b) || Less(b, a)
    decreases |a|
  {
    if a != "" {
      LessTrichotomy(a[1..], if b == "" then "" else b[1..]);
      assert b != "" && a[0] == b[0] && a[1..] == b[1..] ==> a == [a[0]] + a[1..] == [b[0]] + b[1..] == b;
    }
  }

  lemma {:induction false} LessTransitive(a: string, b: string, c: string)
    requires Less(a, b) && Less(b, c)
    ensures Less(a, c)
  {
    if a != "" && a[0] == b[0] && b[0] == c[0] {
      LessTransitive(a[1..], b[1..], c[1..]);
    }
  }

  // ---- decimal numerals (strconv.Atoi, fmt.Sprint) ----

  const MAX_INT64 := 0x7FFF_FFFF_FFFF_FFFF

  predicate IsDigit(c: char) { '0' <= c <= '9' }

  /** The numeral fmt.Sprint renders for a non-negative int. */
  function Sprint(n: nat): (s: string)
    ensures s != "" && forall i :: 0 <= i < |s| ==> IsDigit(s[i])
  {
    var last := [('0' as int + n % 10) as char];
    if n < 10 then last else Sprint(n / 10) + last
  }

  /** The value of a run of digits; None when a character is not a digit. */
  function Digits(s: string): Option<nat> {
    if s == "" then Some(0)
    else
      var init, last := s[..|s| - 1], s[|s| - 1];
      if !IsDigit(last) then None
      else match Digits(init)
        case None => None
        case Some(v) => Some(10 * v + (last as int - '0' as int))
  }

  /** strconv.Atoi on a 64-bit platform: an optional sign, at least one digit, and a value in range. */
  function Atoi(s: string): Option<int> {
    if s == "" then None
    else
      var negative := s[0] == '-';
      var body := if negative || s[0] == '+' then s[1..] else s;
      if body == "" then None
      else match Digits(body)
        case None => None
        case Some(v) =>
          var value := if negative then 0 - v as int else v as int;
          if -MAX_INT64 - 1 <= value <= MAX_INT64 then Some(value) else None
  }

  lemma {:induction false} DigitsOfSprint(n: nat)
    ensures Digits(Sprint(n)) == Some(n)
  {
    if n >= 10 {
      DigitsOfSprint(n / 10);
      assert Sprint(n)[..|Sprint(n)| - 1] == Sprint(n / 10);
    }
  }

  lemma AtoiOfSprint(n: nat)
    requires n <= MAX_INT64
    ensures Atoi(Sprint(n)) == Some(n)
  {
    DigitsOfSprint(n);
    assert IsDigit(Sprint(n)[0]);
  }

  lemma {:induction false} DigitsIff(s: string)
    ensures Digits(s).Some? <==> forall i :: 0 <= i < |s| ==> IsDigit(s[i])
  {
    if s != "" {
      DigitsIff(s[..|s| - 1]);
    }
  }

  predicate IsNumeral(s: string) { s != "" && forall i :: 0 <= i < |s| ==> IsDigit(s[i]) }

  /** Nothing but a numeral is read, perhaps behind a sign ... */
  lemma AtoiReads(s: string)
    ensures Atoi(s).Some? ==> IsNumeral(s) || (s != "" && (s[0] == '-' || s[0] == '+') && IsNumeral(s[1..]))
  {
    DigitsIff(s);
    if s != "" {
      DigitsIff(s[1..]);
    }
  }

  /** ... with a plus sign as without it, and negated with a minus sign. */
  lemma AtoiOfSigned(s: string, n: nat)
    requires IsNumeral(s) && Digits(s) == Some(n) && n <= MAX_INT64
    ensures Atoi(s) == Some(n) && Atoi("+" + s) == Some(n) && Atoi("-" + s) == Some(0 - n as int)
  {
    assert ("+" + s)[1..] == s && ("-" + s)[1..] == s;
  }

  // ---- strings.TrimSpace, strings.Cut, strings.TrimPrefix, strings.TrimSuffix ----

  /** The ASCII part of unicode.IsSpace. */
  predicate IsSpace(c: char) {
    c == ' ' || c == '\t' || c == '\n' || c == '\r' || c == '\U{0B}' || c == '\U{0C}'
  }

  function TrimLeft(s: string): (t: string)
    ensures t == "" || !IsSpace(t[0])
  {
    if s != "" && IsSpace(s[0]) then TrimLeft(s[1..]) else s
  }

  function TrimRight(s: string): (t: string)
    ensures t <= s
    ensures t == "" || !IsSpace(t[|t| - 1])
  {
    if s != "" && IsSpace(s[|s| - 1]) then TrimRight(s[..|s| - 1]) else s
  }

  function Trim(s: string): (t: string) {
    TrimRight(TrimLeft(s))
  }

  /** A string whose ends are not blank is its own trimming. */
  lemma TrimIdentity(s: string)
    requires s != "" ==> !IsSpace(s[0]) && !IsSpace(s[|s| - 1])
    ensures Trim(s) == s
  {
  }

  lemma TrimOfBlankFree(s: string)
    requires forall i :: 0 <= i < |s| ==> !IsSpace(s[i])
    ensures Trim(s) == s
  {
    TrimIdentity(s);
  }

  predicate Blank(s: string) { forall i :: 0 <= i < |s| ==> IsSpace(s[i]) }

  lemma {:induction false} TrimLeftParts(s: string) returns (blanks: string)
    ensures Blank(blanks) && s == blanks + TrimLeft(s)
  {
    if s != "" && IsSpace(s[0]) {
      blanks := TrimLeftParts(s[1..]);
      blanks := [s[0]] + blanks;
    } else {
      blanks := "";
    }
  }

  lemma {:induction false} TrimRightParts(s: string)
    ensures Blank(s[|TrimRight(s)|..])
  {
    if s != "" && IsSpace(s[|s| - 1]) {
      TrimRightParts(s[..|s| - 1]);
      var n := |TrimRight(s)|;
      assert s[n..] == s[..|s| - 1][n..] + [s[|s| - 1]];
    }
  }

  /** Trimming takes blanks off both ends and nothing else; what is left has none at its ends. */
  lemma TrimParts(s: string) returns (front: string, back: string)
    ensures s == front + Trim(s) + back && Blank(front) && Blank(back)
    ensures Trim(s) != "" ==> !IsSpace(Trim(s)[0]) && !IsSpace(Trim(s)[|Trim(s)| - 1])
  {
    front := TrimLeftParts(s);
    var rest := TrimLeft(s);
    TrimRightParts(rest);
    back := rest[|TrimRight(rest)|..];
  }

  lemma TrimsToNothingIff(s: string)
    ensures Trim(s) == "" <==> Blank(s)
  {
    var front, back := TrimParts(s);
    assert Trim(s) != "" ==> s[|front|] == Trim(s)[0];
  }

  function TrimPrefix(s: string, prefix: string): string {
    if prefix <= s then s[|prefix|..] else s
  }

  predicate HasSuffix(s: string, suffix: string) {
    |suffix| <= |s| && s[|s| - |suffix|..] == suffix
  }

  function TrimSuffix(s: string, suffix: string): string {
    if HasSuffix(s, suffix) then s[..|s| - |suffix|] else s
  }

  /** How often one character occurs (strings.Count with a one-character separator). */
  function CountChar(s: string, c: char): nat {
    if s == "" then 0 else (if s[0] == c then 1 else 0) + CountChar(s[1..], c)
  }

  /** The text before and after the first `c` (strings.Cut). */
  function Cut(s: string, c: char): (r: Option<(string, string)>)
    ensures r.None? <==> c !in s
    ensures r.Some? ==> s == r.value.0 + [c] + r.value.1 && c !in r.value.0
  {
    if s == "" then None
    else if s[0] == c then Some(("", s[1..]))
    else match Cut(s[1..], c)
      case None => None
      case Some((before, after)) => Some(([s[0]] + before, after))
  }

  lemma {:induction false} CutAtFirst(before: string, c: char, after: string)
    requires c !in before
    ensures Cut(before + [c] + after, c) == Some((before, after))
  {
    var s := before + [c] + after;
    if before != "" {
      CutAtFirst(before[1..], c, after);
      assert s[1..] == before[1..] + [c] + after;
      assert s[0] == before[0] && before == [before[0]] + before[1..];
    } else {
      assert s[1..] == after;
    }
  }
}
