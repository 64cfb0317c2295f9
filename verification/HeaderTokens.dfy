/** Tokens in header values (src/http/HttpRequest.cpp). */
module HeaderTokens {
  import opened HttpParser
  import opened HttpSyntax
  import opened Text

  /** `value[start..end]` is one entry of a comma-separated list; nothing comes after a comma at the very end. */
  predicate Entry(value: string, start: nat, end: nat) {
    && start <= end <= |value| && start < |value|
    && (start == 0 || value[start - 1] == ',')
    && (end == |value| || value[end] == ',')
    && ',' !in value[start..end]
  }

  ghost predicate Lists(value: string, token: string) {
    exists start: nat, end: nat :: Entry(value, start, end) && SameIgnoringCase(Trim(value[start..end]), token)
  }

  /** Some header of that name lists the token. */
  ghost predicate HasToken(headers: seq<(string, string)>, name: string, token: string) {
    exists i :: 0 <= i < |headers| && SameIgnoringCase(headers[i].0, name) && Lists(headers[i].1, token)
  }

  method ListsToken(value: string, token: string) returns (found: bool)
    ensures found == Lists(value, token)
  {
    hide Trim, SameIgnoringCase;
    var start := 0;
    while start < |value|
      invariant start <= |value| && (start == 0 || value[start - 1] == ',')
      invariant forall from: nat, to: nat :: from < start && Entry(value, from, to) ==> !SameIgnoringCase(Trim(value[from..to]), token)
      decreases |value| - start
    {
      var comma := IndexOf(value, ',', start);
      var end := if comma.None? then |value| else comma.value;
      if comma.None? {
        assert value[start..] == value[start..end];
      }
      assert Entry(value, start, end);
      var current := TrimBlanks(value[start..end]);
      var same := EqualsIgnoreCase(current, token);
      if same {
        return true;
      }
      forall from: nat, to: nat | start <= from <= end && Entry(value, from, to) ensures from == start && to == end {
        OneEntry(value, start, end, from, to);
      }
      if comma.None? {
        break;
      }
      start := end + 1;
    }
    found := false;
  }

  /** Inside an entry no other one begins. */
  lemma OneEntry(value: string, start: nat, end: nat, from: nat, to: nat)
    requires Entry(value, start, end) && Entry(value, from, to) && start <= from <= end
    ensures from == start && to == end
  {
    forall k | start <= k < end ensures value[k] != ',' {
      assert value[k] == value[start..end][k - start];
    }
    forall k | from <= k < to ensures value[k] != ',' {
      assert value[k] == value[from..to][k - from];
    }
  }

  method HasHeaderToken(request: HttpRequest, name: string, token: string) returns (found: bool)
    ensures found == HasToken(request.headers, name, token)
  {
    hide Lists, SameIgnoringCase;
    for i := 0 to |request.headers|
      invariant forall k :: 0 <= k < i ==> !(SameIgnoringCase(request.headers[k].0, name) && Lists(request.headers[k].1, token))
    {
      var same := EqualsIgnoreCase(request.headers[i].0, name);
      if same {
        found := ListsToken(request.headers[i].1, token);
        if found {
          return;
        }
      }
    }
    found := false;
  }
}
