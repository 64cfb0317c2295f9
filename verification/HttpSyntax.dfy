/** The lexical rules of src/http/HttpParser.cpp: tokens, targets, blanks and bounded numbers. */
module HttpSyntax {
  import opened Text

  const MAX_BODY_SIZE: nat := 1024 * 1024

  function Lower(c: char): char {
    if 'A' <= c <= 'Z' then (c as int + 32) as char else c
  }

  predicate SameIgnoringCase(left: string, right: string) {
    |left| == |right| && forall i :: 0 <= i < |left| ==> Lower(left[i]) == Lower(right[i])
  }

  /** The three header names that change how a request is framed or judged. */
  datatype Special = Host | ContentLength | TransferEncoding

  function Spelling(special: Special): string {
    match special
    case Host => "Host"
    case ContentLength => "Content-Length"
    case TransferEncoding => "Transfer-Encoding"
  }

  predicate Names(name: string, special: Special) { SameIgnoringCase(name, Spelling(special)) }

  lemma OneName(name: string, a: Special, b: Special)
    requires Names(name, a) && Names(name, b)
    ensures a == b
  {
    assert |"Host"| == 4 && |"Content-Length"| == 14 && |"Transfer-Encoding"| == 17;
  }

  predicate IsChunked(coding: string) { SameIgnoringCase(coding, "chunked") }

  method EqualsIgnoreCase(left: string, right: string) returns (equal: bool)
    ensures equal == SameIgnoringCase(left, right)
  {
    if |left| != |right| {
      return false;
    }
    for i := 0 to |left|
      invariant forall k :: 0 <= k < i ==> Lower(left[k]) == Lower(right[k])
    {
      if Lower(left[i]) != Lower(right[i]) {
        return false;
      }
    }
    return true;
  }

  predicate IsAlnum(c: char) {
    '0' <= c <= '9' || 'a' <= c <= 'z' || 'A' <= c <= 'Z'
  }

  /** tchar of section 5.6.2 of RFC 9110. */
  predicate IsTokenChar(c: char) {
    IsAlnum(c) || c in "!#$%&'*+-.^_`|~"
  }

  predicate IsToken(s: string) {
    s != "" && forall i :: 0 <= i < |s| ==> IsTokenChar(s[i])
  }

  /** Header names and methods obey the same rule. */
  method IsValidToken(name: string) returns (valid: bool)
    ensures valid == IsToken(name)
  {
    if name == "" {
      return false;
    }
    for i := 0 to |name|
      invariant forall k :: 0 <= k < i ==> IsTokenChar(name[k])
    {
      if IsAlnum(name[i]) {
        continue;
      }
      if name[i] in "!#$%&'*+-.^_`|~" {
        continue;
      }
      return false;
    }
    return true;
  }

  predicate IsTarget(s: string) {
    s != "" && forall i :: 0 <= i < |s| ==> s[i] >= ' ' && s[i] != '\U{7F}'
  }

  method IsValidTarget(target: string) returns (valid: bool)
    ensures valid == IsTarget(target)
  {
    if target == "" {
      return false;
    }
    for i := 0 to |target|
      invariant forall k :: 0 <= k < i ==> target[k] >= ' ' && target[k] != '\U{7F}'
    {
      if target[i] < ' ' || target[i] == '\U{7F}' {
        return false;
      }
    }
    return true;
  }

  lemma TokenHasNo(s: string, c: char)
    requires IsToken(s) && c in "\r\n: \t"
    ensures c !in s
  {
    assert !IsTokenChar(c);
  }

  // ----- blanks -----

  predicate IsBlank(c: char) { c == ' ' || c == '\t' }

  predicate AllBlank(s: string) { forall i :: 0 <= i < |s| ==> IsBlank(s[i]) }

  function StripLeft(s: string): (r: string)
    ensures |r| <= |s|
  {
    if s != "" && IsBlank(s[0]) then StripLeft(s[1..]) else s
  }

  function StripRight(s: string): (r: string)
    ensures |r| <= |s|
  {
    if s != "" && IsBlank(s[|s| - 1]) then StripRight(s[..|s| - 1]) else s
  }

  function Trim(s: string): string { StripRight(StripLeft(s)) }

  lemma {:induction false} StripLeftOf(blanks: string, s: string)
    requires AllBlank(blanks) && (s != "" ==> !IsBlank(s[0]))
    ensures StripLeft(blanks + s) == s
  {
    if blanks == "" {
      assert blanks + s == s;
    } else {
      assert (blanks + s)[1..] == blanks[1..] + s;
      StripLeftOf(blanks[1..], s);
    }
  }

  method SkipBlanks(line: string, from: nat) returns (start: nat)
    requires from <= |line|
    ensures from <= start <= |line| && line[start..] == StripLeft(line[from..])
  {
    start := from;
    while start < |line| && IsBlank(line[start])
      invariant from <= start <= |line|
      invariant StripLeft(line[start..]) == StripLeft(line[from..])
    {
      assert line[start..][1..] == line[start + 1..];
      start := start + 1;
    }
  }

  method TrimBlanks(value: string) returns (trimmed: string)
    ensures trimmed == Trim(value)
  {
    var start := SkipBlanks(value, 0);
    assert value[0..] == value;
    var end := |value|;
    assert value[start..end] == value[start..];
    while end > start && IsBlank(value[end - 1])
      invariant start <= end <= |value|
      invariant StripRight(value[start..end]) == StripRight(StripLeft(value))
    {
      assert value[start..end][..end - 1 - start] == value[start..end - 1];
      end := end - 1;
    }
    return value[start..end];
  }

  // ----- bounded numbers -----

  function Base(hex: bool): nat { if hex then 16 else 10 }

  predicate IsDigit(c: char, hex: bool) {
    '0' <= c <= '9' || (hex && ('a' <= c <= 'f' || 'A' <= c <= 'F'))
  }

  function DigitValue(c: char, hex: bool): (d: nat)
    requires IsDigit(c, hex)
    ensures d < Base(hex)
  {
    if '0' <= c <= '9' then c as int - '0' as int
    else if 'a' <= c <= 'f' then c as int - 'a' as int + 10
    else c as int - 'A' as int + 10
  }

  predicate AllDigits(s: string, hex: bool) { forall i :: 0 <= i < |s| ==> IsDigit(s[i], hex) }

  /** The number a digit string denotes; no bound anywhere. */
  function Numeral(s: string, hex: bool): nat
    requires AllDigits(s, hex)
  {
    if s == "" then 0 else Numeral(s[..|s| - 1], hex) * Base(hex) + DigitValue(s[|s| - 1], hex)
  }

  datatype Number = Value(n: nat) | Malformed | TooBig

  /** What the guarded left-to-right accumulation has decided after the whole of `s`. */
  function Scan(s: string, hex: bool): Number {
    if s == "" then Value(0)
    else
      var before := Scan(s[..|s| - 1], hex);
      if !before.Value? then before
      else ScanDigit(before.n, s[|s| - 1], hex)
  }

  function ScanDigit(acc: nat, c: char, hex: bool): Number {
    if !IsDigit(c, hex) then Malformed
    else if acc > (MAX_BODY_SIZE - DigitValue(c, hex)) / Base(hex) then TooBig
    else Value(acc * Base(hex) + DigitValue(c, hex))
  }

  lemma {:induction false} NumeralGrows(s: string, k: nat, hex: bool)
    requires AllDigits(s, hex) && k <= |s|
    ensures Numeral(s[..k], hex) <= Numeral(s, hex)
  {
    if k < |s| {
      var init := s[..|s| - 1];
      NumeralGrows(init, k, hex);
      assert init[..k] == s[..k];
      TimesBase(Numeral(init, hex), hex);
    } else {
      assert s[..k] == s;
    }
  }

  lemma TimesBase(n: nat, hex: bool)
    ensures n <= n * Base(hex)
  {
    if hex {
      assert n * Base(hex) == n * 16;
    } else {
      assert n * Base(hex) == n * 10;
    }
  }

  /** The guard inside the loop accepts a number exactly when its true value is at most 1 MiB. */
  lemma {:induction false} ScanExact(s: string, hex: bool)
    ensures Scan(s, hex).Value? <==> AllDigits(s, hex) && Numeral(s, hex) <= MAX_BODY_SIZE
    ensures Scan(s, hex).Value? ==> Scan(s, hex).n == Numeral(s, hex)
  {
    if s != "" {
      var init := s[..|s| - 1];
      ScanExact(init, hex);
      if AllDigits(s, hex) {
        NumeralGrows(s, |s| - 1, hex);
      }
    }
  }

  /** Once the scan has failed it has failed for the whole text. */
  lemma {:induction false} ScanStops(s: string, k: nat, hex: bool)
    requires k <= |s| && !Scan(s[..k], hex).Value?
    ensures Scan(s, hex) == Scan(s[..k], hex)
  {
    if k < |s| {
      assert s[..|s| - 1][..k] == s[..k];
      ScanStops(s[..|s| - 1], k, hex);
    } else {
      assert s[..k] == s;
    }
  }

  /** The loop the source runs over a Content-Length value. */
  method ReadNumber(value: string, hex: bool) returns (number: Number)
    ensures number == Scan(value, hex)
  {
    var length: nat := 0;
    for i := 0 to |value|
      invariant Scan(value[..i], hex) == Value(length)
    {
      assert value[..i + 1][..i] == value[..i];
      if !IsDigit(value[i], hex) {
        ScanStops(value, i + 1, hex);
        return Malformed;
      }
      var digit := DigitValue(value[i], hex);
      if length > (MAX_BODY_SIZE - digit) / Base(hex) {
        ScanStops(value, i + 1, hex);
        return TooBig;
      }
      length := length * Base(hex) + digit;
    }
    assert value[..|value|] == value;
    return Value(length);
  }

  function BeforeSemicolon(line: string): string {
    match IndexOf(line, ';', 0)
    case Some(i) => line[..i]
    case None => line
  }

  /** The size a chunk-size line announces, if it is one. */
  function ChunkSizeOf(line: string): Option<nat> {
    var digits := Trim(BeforeSemicolon(line));
    if digits == "" then None
    else
      var number := Scan(digits, true);
      if number.Value? then Some(number.n) else None
  }

  method IsValidChunkSize(line: string) returns (valid: bool, size: nat)
    ensures valid <==> ChunkSizeOf(line).Some?
    ensures valid ==> size == ChunkSizeOf(line).value
  {
    size := 0;
    var chunkValue := line;
    var extension := IndexOf(chunkValue, ';', 0);
    if extension.Some? {
      chunkValue := chunkValue[..extension.value];
    }
    chunkValue := TrimBlanks(chunkValue);
    if chunkValue == "" {
      return false, size;
    }
    var number := ReadNumber(chunkValue, true);
    if !number.Value? {
      return false, size;
    }
    return true, number.n;
  }
}
