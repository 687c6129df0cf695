/** The --header flags, split at their colons (cmd/chaosmania/client.go:454-459). */
module Headers {

  /** The text before the first colon, or all of it. */
  function UpToColon(s: string): (r: string)
    ensures r <= s && ':' !in r
    ensures ':' in s <==> |r| < |s|
    ensures |r| < |s| ==> s[|r|] == ':'
  {
    if s == "" || s[0] == ':' then "" else [s[0]] + UpToColon(s[1..])
  }

  function Name(header: string): string {
    UpToColon(header)
  }

  /** What follows a second colon is dropped. */
  function Text(header: string): string
    requires ':' in header
  {
    UpToColon(header[|Name(header)| + 1..])
  }

  /** The header is its name, a colon and the rest; the text is the rest, or the rest up to its first colon. */
  lemma {:induction false} HeaderIsSplit(header: string) returns (rest: string, more: string)
    requires ':' in header
    ensures header == Name(header) + ":" + rest && ':' !in Name(header) && ':' !in Text(header)
    ensures rest == if ':' in rest then Text(header) + ":" + more else Text(header)
  {
    var n := |Name(header)|;
    rest := header[n + 1..];
    more := if ':' in rest then rest[|Text(header)| + 1..] else "";
  }

  predicate Splittable(header: seq<string>) {
    forall i :: 0 <= i < |header| ==> ':' in header[i]
  }

  function HeaderMap(header: seq<string>): map<string, string>
    requires Splittable(header)
  {
    if header == [] then map[] else
      var last := header[|header| - 1];
      HeaderMap(header[..|header| - 1])[Name(last) := Text(last)]
  }

  /** Of several headers with one name the last counts. */
  lemma {:induction false} LastHeaderCounts(header: seq<string>, i: nat)
    requires Splittable(header) && i < |header|
    requires forall j :: i < j < |header| ==> Name(header[j]) != Name(header[i])
    ensures Name(header[i]) in HeaderMap(header) && HeaderMap(header)[Name(header[i])] == Text(header[i])
  {
    var k := |header| - 1;
    if i == k {
    } else {
      LastHeaderCounts(header[..k], i);
    }
  }

  /** There are no names but those given. */
  lemma {:induction false} OnlyGivenNames(header: seq<string>, n: string) returns (i: nat)
    requires Splittable(header) && n in HeaderMap(header)
    ensures i < |header| && Name(header[i]) == n
  {
    var k := |header| - 1;
    if Name(header[k]) == n {
      i := k;
    } else {
      i := OnlyGivenNames(header[..k], n);
    }
  }

  /** Panics exactly if some header has no colon. */
  method SplitHeaders(header: seq<string>) returns (panicked: bool, headers: map<string, string>)
    ensures panicked <==> !Splittable(header)
    ensures !panicked ==> headers == HeaderMap(header)
  {
    headers := map[];
    for k := 0 to |header|
      invariant Splittable(header[..k]) && headers == HeaderMap(header[..k])
    {
      if ':' !in header[k] {
        return true, headers;
      }
      headers := headers[Name(header[k]) := Text(header[k])];
      assert header[..k + 1][..k] == header[..k];
    }
    assert header[..|header|] == header;
    return false, headers;
  }
}
