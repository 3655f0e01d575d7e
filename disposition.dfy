/** The filename the downloader reads out of a `Content-Disposition` header with
    `re.search('(?<=filename=")(.*)(?=")', value)` and `m.group(1)`
    (downloader_light_modified.py:276-283, downloader.py:234-242).

    This is only loosely the `filename` parameter of section 4.1 of RFC 6266: the search
    takes the leftmost position preceded by `filename="`, and from there the greedy `.*`
    (which does not cross a line break) runs to the LAST '"' on that line. */
module Disposition {
  import opened Py

  const Marker: string := "filename=\""

  /** `(?<=filename=")` holds at position p. */
  predicate MarkerEndsAt(s: string, p: int) {
    |Marker| <= p <= |s| && s[p - |Marker|..p] == Marker
  }

  /** No line break in s[a..b]. */
  predicate NoLineBreak(s: string, a: int, b: int)
    requires 0 <= a <= b <= |s|
  {
    forall k :: a <= k < b ==> s[k] != '\n'
  }

  /** The pattern matches s[p..j] at start p: `.*` spans s[p..j] and `(?=")` sees s[j]. */
  predicate IsMatch(s: string, p: int, j: int) {
    MarkerEndsAt(s, p) && p <= j < |s| && s[j] == '"' && NoLineBreak(s, p, j)
  }

  /** The last '"' at or after p before the first line break, scanning from i; `found` is
      the last one seen in s[p..i]. */
  function LastQuote(s: string, p: nat, i: nat, found: Option<nat>): (r: Option<nat>)
    requires p <= i <= |s| && NoLineBreak(s, p, i)
    requires found.Some? ==> IsQuoteAt(s, p, found.value) && forall k :: found.value < k < i ==> s[k] != '"'
    requires found.None? ==> forall k :: p <= k < i ==> s[k] != '"'
    ensures r.Some? ==> IsQuoteAt(s, p, r.value)
    ensures r.Some? ==> forall j :: IsQuoteAt(s, p, j) ==> j <= r.value
    ensures r.None? ==> forall j :: p <= j < |s| ==> !IsQuoteAt(s, p, j)
    decreases |s| - i
  {
    if i == |s| || s[i] == '\n' then
      found
    else
      LastQuote(s, p, i + 1, if s[i] == '"' then Some(i) else found)
  }

  /** s[j] is a '"' reachable from p without crossing a line break. */
  predicate IsQuoteAt(s: string, p: int, j: int) {
    0 <= p <= j < |s| && s[j] == '"' && NoLineBreak(s, p, j)
  }

  /** (p, j) is the match `re.search` reports: no match starts further left, and none
      starting at p reaches further right. */
  ghost predicate IsFirstMatch(s: string, from: int, p: int, j: int) {
    from <= p && IsMatch(s, p, j) &&
    forall p', j' :: from <= p' && IsMatch(s, p', j') ==> p <= p' && (p' == p ==> j' <= j)
  }

  /** `re.search` from position `from` onwards. */
  function SearchFrom(s: string, from: nat): Option<string>
    decreases |s| + 1 - from
  {
    if from > |s| then None
    else if MarkerEndsAt(s, from) && LastQuote(s, from, from, None).Some? then
      Some(s[from..LastQuote(s, from, from, None).value])
    else SearchFrom(s, from + 1)
  }

  lemma {:induction false} SearchFromFindsFirstMatch(s: string, from: nat)
    ensures SearchFrom(s, from).None? ==> forall p, j :: from <= p && IsMatch(s, p, j) ==> false
    ensures SearchFrom(s, from).Some? ==>
      exists p, j :: IsFirstMatch(s, from, p, j) && SearchFrom(s, from).value == s[p..j]
    decreases |s| + 1 - from
  {
    if from > |s| {
    } else if MarkerEndsAt(s, from) && LastQuote(s, from, from, None).Some? {
      var j := LastQuote(s, from, from, None).value;
      forall j' | IsMatch(s, from, j') ensures j' <= j {
        assert IsQuoteAt(s, from, j');
      }
      assert IsFirstMatch(s, from, from, j);
    } else {
      SearchFromFindsFirstMatch(s, from + 1);
      forall j | IsMatch(s, from, j) ensures false {
        assert IsQuoteAt(s, from, j);
      }
      var r := SearchFrom(s, from + 1);
      if r.Some? {
        var p, j :| IsFirstMatch(s, from + 1, p, j) && r.value == s[p..j];
        assert IsFirstMatch(s, from, p, j);
      }
    }
  }

  /** The value of `m.group(1)`, or None when `m` is None. */
  function FilenameFromHeader(s: string): Option<string> {
    SearchFrom(s, 0)
  }

  /** `m.group(1)` is present exactly when the header holds `filename="` followed, on the
      same line, by a '"', and it is then the text from the leftmost such `filename="` up to
      the last '"' after it. */
  lemma FilenameFromHeaderMatches(s: string)
    ensures FilenameFromHeader(s).None? <==> forall p, j :: !IsMatch(s, p, j)
    ensures FilenameFromHeader(s).Some? ==>
      exists p, j :: IsFirstMatch(s, 0, p, j) && FilenameFromHeader(s).value == s[p..j]
  {
    SearchFromFindsFirstMatch(s, 0);
  }

  /** A header with a single `filename="...";` parameter and no other '"' yields the quoted name. */
  lemma QuotedFilename(prefix: string, name: string)
    requires '"' !in prefix && '"' !in name && '\n' !in name
    ensures FilenameFromHeader(prefix + Marker + name + "\"") == Some(name)
  {
    var s := prefix + Marker + name + "\"";
    var p := |prefix| + |Marker|;
    var j := |s| - 1;
    assert s[p - |Marker|..p] == Marker;
    assert s[p..j] == name;
    assert IsMatch(s, p, j);
    FilenameFromHeaderMatches(s);
    var r := FilenameFromHeader(s);
    var p', j' :| IsFirstMatch(s, 0, p', j') && r.value == s[p'..j'];
    assert p' <= p;
    QuoteBeforeMarkerEnd(prefix, name, p');
    assert j <= j';
  }

  /** In such a header the only '"' at or before the end of `filename="` is its own. */
  lemma QuoteBeforeMarkerEnd(prefix: string, name: string, q: int)
    requires '"' !in prefix
    requires MarkerEndsAt(prefix + Marker + name + "\"", q) && q <= |prefix| + |Marker|
    ensures q == |prefix| + |Marker|
  {
    var s := prefix + Marker + name + "\"";
    forall k | 0 <= k < |prefix| + |Marker| - 1 ensures s[k] != '"' {
      if k < |prefix| {
        assert s[k] == prefix[k];
      } else {
        assert s[k] == Marker[k - |prefix|];
      }
    }
    assert s[q - 1] == '"';
  }
}
