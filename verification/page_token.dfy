/** Extraction of the next page token from a `next` URL, as done by
    `re.match(r'^.*page=(.*)', url).group(1)`, and the query string a token is
    fetched with. `.` in that pattern matches any character but a newline, so
    the match lives in the first line of the URL; the greedy `.*` makes the
    captured group the rest of that line after its LAST `page=`.

    The functions here are plain definitions; what they compute is stated by
    the lemmas that follow them. */
module PageToken {
  import opened Wrappers

  const Marker: string := "page="

  /** The query string the cursor hands to the client for a page token. */
  function Query(token: string): string
  {
    "?" + Marker + token
  }

  /** `Marker` occurs in `s` starting at position `j`. */
  predicate MarkerAt(s: string, j: int)
  {
    0 <= j && j + |Marker| <= |s| && s[j..j + |Marker|] == Marker
  }

  /** The text a regex `.` can range over from the start of `s`: everything
      before the first newline. */
  function FirstLine(s: string): string
  {
    if |s| == 0 || s[0] == '\n' then []
    else [s[0]] + FirstLine(s[1..])
  }

  /** The largest position below `n` at which `Marker` occurs in `s`. */
  function LastMarkerBelow(s: string, n: nat): (r: Option<nat>)
    ensures r.Some? ==> r.value < n && r.value + |Marker| <= |s|
  {
    if n == 0 then None
    else if MarkerAt(s, n - 1) then Some(n - 1)
    else LastMarkerBelow(s, n - 1)
  }

  /** The captured group of the match, or None when the pattern does not
      match (the source then calls `.group` on None and fails). */
  function ExtractToken(url: string): Option<string>
  {
    var line := FirstLine(url);
    var last := LastMarkerBelow(line, |line| + 1);
    if last.None? then None else Some(line[last.value + |Marker|..])
  }

  /** The first line is the longest newline-free prefix. */
  lemma {:induction false} FirstLineSpec(s: string)
    ensures FirstLine(s) <= s
    ensures '\n' !in FirstLine(s)
    ensures |FirstLine(s)| < |s| ==> s[|FirstLine(s)|] == '\n'
  {
    if |s| > 0 && s[0] != '\n' {
      FirstLineSpec(s[1..]);
    }
  }

  /** The search finds the last occurrence below `n`, and finds nothing only
      when there is none. */
  lemma {:induction false} LastMarkerBelowSpec(s: string, n: nat)
    ensures LastMarkerBelow(s, n).Some? ==>
      && LastMarkerBelow(s, n).value < n
      && MarkerAt(s, LastMarkerBelow(s, n).value)
      && forall j :: LastMarkerBelow(s, n).value < j < n ==> !MarkerAt(s, j)
    ensures LastMarkerBelow(s, n).None? ==> forall j :: 0 <= j < n ==> !MarkerAt(s, j)
  {
    if n > 0 && !MarkerAt(s, n - 1) {
      LastMarkerBelowSpec(s, n - 1);
    }
  }

  /** What the regex captures: there is a match exactly when the first line
      holds `Marker`, and then the group is the newline-free rest of the
      first line after its last `Marker`. */
  lemma ExtractTokenSpec(url: string)
    ensures ExtractToken(url).None? ==> forall j :: !MarkerAt(FirstLine(url), j)
    ensures (forall j :: !MarkerAt(FirstLine(url), j)) ==> ExtractToken(url).None?
    ensures ExtractToken(url).Some? ==> '\n' !in ExtractToken(url).value
    ensures ExtractToken(url).Some? ==>
      exists j :: && MarkerAt(FirstLine(url), j)
                  && FirstLine(url)[j + |Marker|..] == ExtractToken(url).value
                  && forall k :: j < k ==> !MarkerAt(FirstLine(url), k)
  {
    var line := FirstLine(url);
    FirstLineSpec(url);
    LastMarkerBelowSpec(line, |line| + 1);
    var last := LastMarkerBelow(line, |line| + 1);
    if last.Some? {
      assert MarkerAt(line, last.value);
      assert forall c :: c in line[last.value + |Marker|..] ==> c in line;
    }
  }

  /** A `next` URL that ends in the query of a token (and holds no newline)
      gives that token back, provided the token itself holds no `page=`. */
  lemma ExtractQueryRoundTrip(base: string, token: string)
    requires '\n' !in base && '\n' !in token
    requires forall j :: !MarkerAt(token, j)
    ensures ExtractToken(base + Query(token)) == Some(token)
  {
    var url := base + Query(token);
    var m := |base| + 1;
    assert url == (base + "?") + Marker + token;
    assert '\n' !in url;
    NoNewlineFirstLine(url);
    MarkerAtQuery(base, token);
    LastMarkerBelowSpec(url, |url| + 1);
    var r := LastMarkerBelow(url, |url| + 1);
    var j := r.value;
    if j != m {
      assert m < j;
      LaterMarkerInToken(base, token, j);
    }
    assert url[m + |Marker|..] == token;
  }

  /** `base + Query(token)` holds `Marker` right after the `?`. */
  lemma MarkerAtQuery(base: string, token: string)
    ensures MarkerAt(base + Query(token), |base| + 1)
  {
  }

  /** `Marker` cannot start inside the `Marker` of a query: none of its later
      characters is its first one. */
  lemma NoMarkerInsideQuery(base: string, token: string, j: int)
    requires |base| + 1 < j < |base| + 1 + |Marker|
    ensures !MarkerAt(base + Query(token), j)
  {
    var url := base + Query(token);
    assert url[j] == Marker[j - |base| - 1];
  }

  /** Every occurrence of `Marker` past the one a query starts with lies
      inside the token. */
  lemma LaterMarkerInToken(base: string, token: string, j: int)
    requires |base| + 1 < j
    requires MarkerAt(base + Query(token), j)
    ensures MarkerAt(token, j - |base| - 1 - |Marker|)
  {
    var url := base + Query(token);
    var m := |base| + 1;
    if j < m + |Marker| {
      NoMarkerInsideQuery(base, token, j);
      assert false;
    }
    var t := j - m - |Marker|;
    assert url[j..j + |Marker|] == token[t..t + |Marker|];
  }

  /** A text without newlines is its own first line. */
  lemma NoNewlineFirstLine(s: string)
    requires '\n' !in s
    ensures FirstLine(s) == s
  {
  }
}
