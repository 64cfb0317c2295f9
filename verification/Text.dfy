/** Byte strings as the program sees them: searching and slicing. */
module Text {

  datatype Option<+T> = None | Some(value: T)

  predicate CrlfAt(s: string, i: int) {
    0 <= i && i + 1 < |s| && s[i] == '\r' && s[i + 1] == '\n'
  }

  /** `s.find("\r\n", from)`. */
  function FindCrlf(s: string, from: nat): (r: Option<nat>)
    requires from <= |s|
    ensures r.Some? ==> from <= r.value && CrlfAt(s, r.value) && forall k :: from <= k < r.value ==> !CrlfAt(s, k)
    ensures r.None? ==> forall k :: from <= k ==> !CrlfAt(s, k)
    decreases |s| - from
  {
    if |s| - from < 2 then None
    else if CrlfAt(s, from) then Some(from)
    else FindCrlf(s, from + 1)
  }

  /** `s.find(c, from)`. */
  function IndexOf(s: string, c: char, from: nat): (r: Option<nat>)
    requires from <= |s|
    ensures r.Some? ==> from <= r.value < |s| && s[r.value] == c && c !in s[from..r.value]
    ensures r.None? ==> c !in s[from..]
    decreases |s| - from
  {
    if from == |s| then None
    else if s[from] == c then Some(from)
    else IndexOf(s, c, from + 1)
  }

  lemma {:induction false} IndexIs(s: string, c: char, from: nat, i: nat)
    requires from <= i < |s| && s[i] == c && c !in s[from..i]
    ensures IndexOf(s, c, from) == Some(i)
    decreases i - from
  {
    if from < i {
      assert s[from..i][0] == s[from];
      assert s[from + 1..i] == s[from..i][1..];
      IndexIs(s, c, from + 1, i);
    }
  }

  /** Searching a buffer from an offset is searching the rest of the buffer. */
  lemma FindInRest(s: string, from: nat)
    requires from <= |s|
    ensures FindCrlf(s, from).None? <==> FindCrlf(s[from..], 0).None?
    ensures FindCrlf(s, from).Some? ==> FindCrlf(s, from).value == from + FindCrlf(s[from..], 0).value
  {
    var rest := s[from..];
    assert forall k :: 0 <= k ==> (CrlfAt(rest, k) <==> CrlfAt(s, from + k));
    match FindCrlf(s, from) {
      case Some(e) => assert CrlfAt(rest, e - from);
      case None =>
    }
    match FindCrlf(rest, 0) {
      case Some(e) => assert CrlfAt(s, from + e);
      case None =>
    }
  }

  /** A line found in `s` is found at the same place when more bytes follow. */
  lemma FindInExtension(s: string, more: string)
    ensures FindCrlf(s, 0).Some? ==> FindCrlf(s + more, 0) == FindCrlf(s, 0)
    ensures FindCrlf(s + more, 0).Some? && FindCrlf(s + more, 0).value + 2 <= |s| ==> FindCrlf(s, 0) == FindCrlf(s + more, 0)
    ensures FindCrlf(s, 0).None? && FindCrlf(s + more, 0).Some? ==> FindCrlf(s + more, 0).value + 1 >= |s|
  {
    var t := s + more;
    assert forall k :: 0 <= k && k + 1 < |s| ==> (CrlfAt(s, k) <==> CrlfAt(t, k));
    match FindCrlf(s, 0) {
      case Some(e) => assert CrlfAt(t, e);
      case None =>
    }
  }

  /** The first line of `line + CRLF + rest` is `line`, when `line` holds no CRLF itself. */
  lemma FindAfterLine(line: string, rest: string)
    requires FindCrlf(line, 0).None?
    ensures FindCrlf(line + "\r\n" + rest, 0) == Some(|line|)
  {
    var t := line + "\r\n" + rest;
    assert CrlfAt(t, |line|);
    forall k | 0 <= k < |line| ensures !CrlfAt(t, k) {
      assert !CrlfAt(line, k);
    }
  }

  lemma NoCrlf(line: string)
    requires '\r' !in line || '\n' !in line
    ensures FindCrlf(line, 0).None?
  {
  }

  /** A text before a found line end holds no line end. */
  lemma LineHasNoCrlf(s: string)
    requires FindCrlf(s, 0).Some?
    ensures var e := FindCrlf(s, 0).value;
            FindCrlf(s[..e], 0).None? && s == s[..e] + "\r\n" + s[e + 2..]
  {
    var e := FindCrlf(s, 0).value;
    match FindCrlf(s[..e], 0) {
      case Some(k) => assert CrlfAt(s, k);
      case None =>
    }
  }
}
