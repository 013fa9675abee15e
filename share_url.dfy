/**
 * Extraction of a file identifier from a share URL.
 *
 * The client searches the URL for the pattern `webshare\.cz/#?/?file/([^/]+)`
 * and returns the captured group, or nothing when the pattern matches nowhere.
 * The pattern is written out here as a matcher on strings: `MatchAt` runs the
 * pattern anchored at one position, `Search` tries positions from left to
 * right, as a regular-expression search does.  `MatchesVia` describes the
 * accepted shapes declaratively, and the lemmas show the two agree.
 */
module ShareUrl {
  import opened Wrappers

  const Host: string := "webshare.cz/"
  const FileSegment: string := "file/"

  /** `p` occurs in `s` starting at position `i`. */
  predicate OccursAt(s: string, i: nat, p: string) {
    i + |p| <= |s| && s[i..i + |p|] == p
  }

  /** Position after an optional character `c` at `k`: the `#?` and `/?` of the pattern. */
  function SkipOptional(s: string, k: nat, c: char): (e: nat)
    requires k <= |s|
    ensures k <= e <= |s|
    ensures e == k + 1 <==> k < |s| && s[k] == c
  {
    if k < |s| && s[k] == c then k + 1 else k
  }

  /** End of the longest run of characters other than '/' that starts at `k`: the greedy `[^/]+`. */
  function RunEnd(s: string, k: nat): (e: nat)
    requires k <= |s|
    ensures k <= e <= |s|
    ensures forall j :: k <= j < e ==> s[j] != '/'
    ensures e == |s| || s[e] == '/'
    decreases |s| - k
  {
    if k < |s| && s[k] != '/' then RunEnd(s, k + 1) else k
  }

  /** The pattern anchored at position `i` of `url`, giving the captured identifier. */
  function MatchAt(url: string, i: nat): (r: Option<string>)
    requires i <= |url|
    ensures r.Some? ==> r.value != [] && '/' !in r.value
  {
    if !OccursAt(url, i, Host) then None
    else
      var k := SkipOptional(url, SkipOptional(url, i + |Host|, '#'), '/');
      if !OccursAt(url, k, FileSegment) then None
      else
        var start := k + |FileSegment|;
        var end := RunEnd(url, start);
        if start == end then None else Some(url[start..end])
  }

  /** The leftmost match at or after position `i`. */
  function Search(url: string, i: nat): (r: Option<string>)
    requires i <= |url|
    ensures r.Some? ==> r.value != [] && '/' !in r.value
    decreases |url| - i
  {
    if i == |url| then None
    else if MatchAt(url, i).Some? then MatchAt(url, i)
    else Search(url, i + 1)
  }

  /** The identifier of a share URL, or None when the URL is not a share URL. */
  function GetIdent(url: string): (r: Option<string>)
    ensures r.Some? ==> r.value != [] && '/' !in r.value
  {
    Search(url, 0)
  }

  /**
   * Declarative shape of a match at `i`: the host, then `route` (one of
   * "", "#", "/" or "#/"), then "file/", then `id`, which is non-empty, holds
   * no '/', and is followed by '/' or by the end of the URL.
   */
  predicate MatchesVia(url: string, i: nat, route: string, id: string) {
    var k := i + |Host| + |route|;
    var start := k + |FileSegment|;
    var end := start + |id|;
    && id != [] && '/' !in id
    && end <= |url|
    && url[i..i + |Host|] == Host
    && url[i + |Host|..k] == route
    && url[k..start] == FileSegment
    && url[start..end] == id
    && (end == |url| || url[end] == '/')
  }

  /** The pattern matches at `i` through some route and captures `id`. */
  predicate Matches(url: string, i: nat, id: string) {
    || MatchesVia(url, i, "", id)
    || MatchesVia(url, i, "#", id)
    || MatchesVia(url, i, "/", id)
    || MatchesVia(url, i, "#/", id)
  }

  /** A run of non-'/' characters from `k` that stops at `e` is what RunEnd finds. */
  lemma RunEndIs(s: string, k: nat, e: nat)
    requires k <= e <= |s|
    requires forall j :: k <= j < e ==> s[j] != '/'
    requires e == |s| || s[e] == '/'
    ensures RunEnd(s, k) == e
  {
  }

  /** The anchored matcher accepts exactly the declarative shapes. */
  lemma MatchAtIff(url: string, i: nat, id: string)
    requires i <= |url|
    ensures MatchAt(url, i) == Some(id) <==> Matches(url, i, id)
  {
    var h := i + |Host|;
    if MatchAt(url, i) == Some(id) {
      var k := SkipOptional(url, SkipOptional(url, h, '#'), '/');
      var route := url[h..k];
      var start := k + |FileSegment|;
      assert url[start..RunEnd(url, start)] == id;
      if k == h {
        assert route == "";
        assert MatchesVia(url, i, "", id);
      } else if k == h + 2 {
        assert route == "#/";
        assert MatchesVia(url, i, "#/", id);
      } else if url[h] == '#' {
        assert route == "#";
        assert MatchesVia(url, i, "#", id);
      } else {
        assert route == "/";
        assert MatchesVia(url, i, "/", id);
      }
    }
    if Matches(url, i, id) {
      if MatchesVia(url, i, "", id) {
        MatchesViaIsMatchAt(url, i, "", id);
      } else if MatchesVia(url, i, "#", id) {
        MatchesViaIsMatchAt(url, i, "#", id);
      } else if MatchesVia(url, i, "/", id) {
        MatchesViaIsMatchAt(url, i, "/", id);
      } else {
        MatchesViaIsMatchAt(url, i, "#/", id);
      }
    }
  }

  /** Through each route, the greedy optional steps of the matcher land where the shape says. */
  lemma MatchesViaIsMatchAt(url: string, i: nat, route: string, id: string)
    requires route == "" || route == "#" || route == "/" || route == "#/"
    requires MatchesVia(url, i, route, id)
    ensures MatchAt(url, i) == Some(id)
  {
  }

  /** Search from `i` finds the leftmost anchored match at or after `i`, and nothing only when there is none. */
  lemma {:induction false} SearchIsLeftmost(url: string, i: nat)
    requires i <= |url|
    ensures Search(url, i).None? <==> forall j :: i <= j <= |url| ==> MatchAt(url, j).None?
    ensures Search(url, i).Some? ==>
      exists j :: i <= j <= |url| && MatchAt(url, j) == Search(url, i) &&
        forall k :: i <= k < j ==> MatchAt(url, k).None?
    decreases |url| - i
  {
    if i == |url| {
      assert MatchAt(url, i).None?;
    } else if MatchAt(url, i).None? {
      SearchIsLeftmost(url, i + 1);
      if Search(url, i).Some? {
        var j :| i + 1 <= j <= |url| && MatchAt(url, j) == Search(url, i + 1) &&
          forall k :: i + 1 <= k < j ==> MatchAt(url, k).None?;
        assert forall k :: i <= k < j ==> MatchAt(url, k).None?;
      }
    }
  }

  /** Positions where the pattern does not match are passed over. */
  lemma {:induction false} SearchSkips(url: string, i: nat, j: nat)
    requires i <= j <= |url|
    requires forall k :: i <= k < j ==> MatchAt(url, k).None?
    ensures Search(url, i) == Search(url, j)
    decreases j - i
  {
    if i < j {
      SearchSkips(url, i + 1, j);
    }
  }

  /**
   * The identifier found is the one captured at the leftmost position where the
   * whole pattern matches; a later match never wins over an earlier one.
   */
  lemma GetIdentIsLeftmostMatch(url: string, id: string)
    ensures GetIdent(url) == Some(id) <==>
      exists i: nat :: i <= |url| && Matches(url, i, id) &&
        forall j: nat, other :: j < i ==> !Matches(url, j, other)
  {
    SearchIsLeftmost(url, 0);
    if GetIdent(url) == Some(id) {
      var i :| 0 <= i <= |url| && MatchAt(url, i) == Some(id) &&
        forall k :: 0 <= k < i ==> MatchAt(url, k).None?;
      MatchAtIff(url, i, id);
      forall j: nat, other | j < i ensures !Matches(url, j, other) {
        MatchAtIff(url, j, other);
      }
    }
    if exists i: nat :: i <= |url| && Matches(url, i, id) &&
        forall j: nat, other :: j < i ==> !Matches(url, j, other) {
      var i: nat :| i <= |url| && Matches(url, i, id) &&
        forall j: nat, other :: j < i ==> !Matches(url, j, other);
      MatchAtIff(url, i, id);
      var j :| 0 <= j <= |url| && MatchAt(url, j) == Search(url, 0) &&
        forall k :: 0 <= k < j ==> MatchAt(url, k).None?;
      if j < i {
        MatchAtIff(url, j, MatchAt(url, j).value);
        assert false;
      }
    }
  }

  /** The URL is rejected exactly when the pattern matches nowhere in it. */
  lemma GetIdentNoneIffNoMatch(url: string)
    ensures GetIdent(url).None? <==> forall i: nat, id :: i <= |url| ==> !Matches(url, i, id)
  {
    SearchIsLeftmost(url, 0);
    if GetIdent(url).None? {
      forall i: nat, id | i <= |url| ensures !Matches(url, i, id) {
        MatchAtIff(url, i, id);
      }
    } else {
      var id := GetIdent(url).value;
      GetIdentIsLeftmostMatch(url, id);
    }
  }

  /** "https://webshare.cz/#/file/abc123/filename.ext", spelled out by its parts. */
  const ExampleUrl: string := "https://" + Host + "#/" + FileSegment + "abc123" + "/filename.ext"

  /** A typical share URL with the "#/" route and a file name after the identifier. */
  lemma ExampleShareUrl()
    ensures GetIdent(ExampleUrl) == Some("abc123")
  {
    ExampleMatchesAtHost();
    ExampleNoEarlierMatch();
    var url := ExampleUrl;
    assert Search(url, 8) == Some("abc123");
    SearchSkips(url, 0, 8);
  }

  lemma ExampleMatchesAtHost()
    ensures MatchAt(ExampleUrl, 8) == Some("abc123")
  {
    var url := ExampleUrl;
    assert url[8..20] == Host;
    assert url[20..22] == "#/";
    assert url[22..27] == FileSegment;
    assert url[27..33] == "abc123";
    assert url[33] == '/';
    MatchesViaIsMatchAt(url, 8, "#/", "abc123");
  }

  lemma ExampleNoEarlierMatch()
    ensures forall j: nat :: j < 8 ==> MatchAt(ExampleUrl, j).None?
  {
    forall j: nat | j < 8 ensures MatchAt(ExampleUrl, j).None? {
      assert ExampleUrl[j + 4] != Host[4];
    }
  }

  /** "webshare.cz/folder/webshare.cz/file/x": the first occurrence of the host does not match, a later one does. */
  const LaterMatchUrl: string := Host + "folder/" + Host + FileSegment + "x"

  /** The search takes the leftmost position where the whole pattern matches, not the first occurrence of the host. */
  lemma ExampleLaterMatchWins()
    ensures GetIdent(LaterMatchUrl) == Some("x")
  {
    var url := LaterMatchUrl;
    assert url[12..17] != FileSegment by {
      assert url[13] != FileSegment[1];
    }
    assert MatchAt(url, 0).None?;
    forall j: nat | 1 <= j < 19 ensures MatchAt(url, j).None? {
      assert url[j] != Host[0];
    }
    assert url[19..31] == Host && url[31..36] == FileSegment && url[36..37] == "x";
    MatchesViaIsMatchAt(url, 19, "", "x");
    SearchSkips(url, 0, 19);
  }

  /** "webshare.cz/file/": the identifier may not be empty, so the URL is rejected. */
  const NoIdentUrl: string := Host + FileSegment

  lemma ExampleEmptyIdentRejected()
    ensures GetIdent(NoIdentUrl) == None
  {
    var url := NoIdentUrl;
    assert url[12..17] == FileSegment;
    assert MatchAt(url, 0).None?;
    forall j: nat | 1 <= j < |url| ensures MatchAt(url, j).None? {
      assert j <= 5 ==> url[j] != Host[0];
    }
    SearchSkips(url, 0, |url|);
  }
}
