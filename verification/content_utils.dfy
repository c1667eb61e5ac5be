/**
 * The link classifier shared by the list tabs: `isUrl`, the tab filter and
 * the per-tab counters.
 */
module ContentUtils {
  import opened Strings
  import opened Domain

  /**
   * The regular expression `^https?:\/\/[^\s]+$`, matched piece by piece:
   * `http`, an optional `s`, `://`, then one or more non-whitespace
   * characters up to the end.
   */
  predicate MatchesUrlPattern(t: string)
  {
    StartsWith(t, "http") &&
    var u := if |t| > 4 && t[4] == 's' then t[5..] else t[4..];
    StartsWith(u, "://") && MatchesNonSpaceRun(u[3..])
  }

  /** `[^\s]+$`: a non-empty run of non-whitespace characters. */
  predicate MatchesNonSpaceRun(t: string)
  {
    t != [] && !IsWhitespace(t[0]) && (|t| == 1 || MatchesNonSpaceRun(t[1..]))
  }

  /** `isUrl(content)`: the trimmed content matches the URL pattern. */
  predicate IsUrl(content: string)
  {
    MatchesUrlPattern(Trim(content))
  }

  lemma {:induction false} NonSpaceRunIff(t: string)
    ensures MatchesNonSpaceRun(t) <==> t != [] && NoWhitespace(t)
  {
    if |t| > 1 {
      NonSpaceRunIff(t[1..]);
      if NoWhitespace(t[1..]) && !IsWhitespace(t[0]) {
        forall i | 0 <= i < |t| ensures !IsWhitespace(t[i]) {
          if i > 0 { assert t[i] == t[1..][i - 1]; }
        }
      }
    }
  }

  /** `NoWhitespace` of a string split at `n` is that of its two halves. */
  lemma NoWhitespaceSplit(t: string, n: int)
    requires 0 <= n <= |t|
    ensures NoWhitespace(t) <==> NoWhitespace(t[..n]) && NoWhitespace(t[n..])
  {
    if NoWhitespace(t[..n]) && NoWhitespace(t[n..]) {
      forall i | 0 <= i < |t| ensures !IsWhitespace(t[i]) {
        if i < n { assert t[i] == t[..n][i]; } else { assert t[i] == t[n..][i - n]; }
      }
    }
  }

  /** After `http` or `https` comes `://`: the pattern is the scheme followed by a non-space run. */
  lemma SchemeThenRun(t: string, k: int)
    requires StartsWith(t, "http") && k == (if |t| > 4 && t[4] == 's' then 5 else 4)
    requires StartsWith(t[k..], "://")
    ensures MatchesNonSpaceRun(t[k + 3..]) <==>
      ((StartsWith(t, "http://") && |t| > 7) || (StartsWith(t, "https://") && |t| > 8)) && NoWhitespace(t)
  {
    NonSpaceRunIff(t[k + 3..]);
    NoWhitespaceSplit(t, k + 3);
    assert t[..k + 3] == t[..4] + t[4..k] + t[k..][..3];
    if k == 4 {
      assert t[..7] == "http://";
      assert !StartsWith(t, "https://") by { assert |t| < 8 || t[..8][4] == ':'; }
    } else {
      assert t[..8] == "https://";
      assert !StartsWith(t, "http://") by { assert t[..7][4] == 's'; }
    }
  }

  /** `http` or `https` not followed by `://` is neither scheme. */
  lemma SchemeWithoutSeparator(t: string, k: int)
    requires StartsWith(t, "http") && k == (if |t| > 4 && t[4] == 's' then 5 else 4)
    requires !StartsWith(t[k..], "://")
    ensures !StartsWith(t, "http://") && !StartsWith(t, "https://")
  {
    if k == 5 {
      if |t| >= 8 {
        assert t[..8][5..] == t[5..8] == t[k..][..3];
      }
      assert |t| < 7 || t[..7][4] == 's';
    } else {
      if |t| >= 7 {
        assert t[..7][4..] == t[4..7] == t[k..][..3];
      }
      assert |t| < 8 || t[..8][4] == t[4];
    }
  }

  /**
   * The URL pattern matches exactly `http://` or `https://` followed by at
   * least one character, with no whitespace anywhere.
   */
  lemma UrlPatternIff(t: string)
    ensures MatchesUrlPattern(t) <==>
      ((StartsWith(t, "http://") && |t| > 7) || (StartsWith(t, "https://") && |t| > 8)) && NoWhitespace(t)
  {
    if StartsWith(t, "http") {
      var k := if |t| > 4 && t[4] == 's' then 5 else 4;
      if StartsWith(t[k..], "://") {
        assert t[k..][3..] == t[k + 3..];
        SchemeThenRun(t, k);
      } else {
        SchemeWithoutSeparator(t, k);
      }
    } else {
      assert |t| < 7 || t[..7][..4] == t[..4];
      assert |t| < 8 || t[..8][..4] == t[..4];
    }
  }

  /**
   * A content is a URL exactly when, once trimmed, it is `http://` or
   * `https://` followed by at least one character and holds no whitespace.
   */
  lemma IsUrlIff(content: string)
    ensures IsUrl(content) <==>
      var t := Trim(content);
      ((StartsWith(t, "http://") && |t| > 7) || (StartsWith(t, "https://") && |t| > 8))
      && NoWhitespace(t)
  {
    UrlPatternIff(Trim(content));
  }

  /** A URL is never blank. */
  lemma UrlIsNotBlank(content: string)
    requires IsUrl(content)
    ensures !AllWhitespace(content)
  {
    TrimEmptyIff(content);
  }

  // ---------------------------------------------------------------------------
  // The list tabs.

  /** The `type` argument of `filterClipboardItems`. */
  datatype Tab = All | Links | Other

  /** The entries whose link-ness is `links`, in their original order (`items.filter`). */
  function KeepByLink(items: seq<Item>, links: bool): (r: seq<Item>)
    ensures |r| <= |items|
    ensures forall k | 0 <= k < |r| :: IsUrl(r[k].content) == links
  {
    if items == [] then []
    else if IsUrl(items[0].content) == links then [items[0]] + KeepByLink(items[1..], links)
    else KeepByLink(items[1..], links)
  }

  /** The kept entries are the input's, in the input's order. */
  lemma {:induction false} KeepIsSubsequence(items: seq<Item>, links: bool)
    ensures IsSubsequence(KeepByLink(items, links), items)
  {
    if items != [] {
      var rest := KeepByLink(items[1..], links);
      KeepIsSubsequence(items[1..], links);
      if IsUrl(items[0].content) == links {
        assert ([items[0]] + rest)[1..] == rest;
      } else {
        SubsequencePrepend(rest, items[1..], items[0]);
        assert [items[0]] + items[1..] == items;
      }
    }
  }

  /** An entry is kept exactly when it is in the input and its link-ness is `links`. */
  lemma {:induction false} KeepMembers(items: seq<Item>, links: bool, x: Item)
    ensures x in KeepByLink(items, links) <==> x in items && IsUrl(x.content) == links
  {
    if items != [] {
      KeepMembers(items[1..], links, x);
      assert x in items <==> x == items[0] || x in items[1..] by {
        assert items == [items[0]] + items[1..];
      }
    }
  }

  /** `filterClipboardItems(items, type)`. */
  function FilterItems(items: seq<Item>, tab: Tab): (r: seq<Item>)
    ensures tab != All ==> forall k | 0 <= k < |r| :: IsUrl(r[k].content) == (tab == Links)
  {
    if tab == All then items else KeepByLink(items, tab == Links)
  }

  /**
   * The `links` tab shows exactly the URL entries and the `other` tab exactly
   * the rest, each in the list's order.
   */
  lemma FilterSelects(items: seq<Item>, tab: Tab, x: Item)
    requires tab != All
    ensures IsSubsequence(FilterItems(items, tab), items)
    ensures x in FilterItems(items, tab) <==> x in items && IsUrl(x.content) == (tab == Links)
  {
    KeepIsSubsequence(items, tab == Links);
    KeepMembers(items, tab == Links, x);
  }

  /** The `all` tab shows the list unchanged. */
  lemma FilterAllIsIdentity(items: seq<Item>)
    ensures FilterItems(items, All) == items
  {
  }

  /** The `links` and `other` tabs split the list between them. */
  lemma {:induction false} FilterPartition(items: seq<Item>)
    ensures |FilterItems(items, Links)| + |FilterItems(items, Other)| == |items|
  {
    if items != [] {
      FilterPartition(items[1..]);
    }
  }

  /** Filtering a list with one more entry at the end. */
  lemma {:induction false} KeepAppend(items: seq<Item>, x: Item, links: bool)
    ensures KeepByLink(items + [x], links)
      == KeepByLink(items, links) + (if IsUrl(x.content) == links then [x] else [])
  {
    if items == [] {
      assert [x][1..] == [];
    } else {
      var xs := items + [x];
      assert xs[0] == items[0] && xs[1..] == items[1..] + [x];
      KeepAppend(items[1..], x, links);
      var tail := if IsUrl(x.content) == links then [x] else [];
      var head := if IsUrl(items[0].content) == links then [items[0]] else [];
      assert KeepByLink(xs, links) == head + KeepByLink(xs[1..], links);
      assert KeepByLink(items, links) == head + KeepByLink(items[1..], links);
      assert head + (KeepByLink(items[1..], links) + tail) == (head + KeepByLink(items[1..], links)) + tail;
    }
  }

  /** The three counters `countItemsByType` returns. */
  datatype Counts = Counts(links: nat, other: nat, all: nat)

  /** `countItemsByType(items)`: one pass that counts links and the rest. */
  method CountItemsByType(items: seq<Item>) returns (counts: Counts)
    ensures counts.links == |FilterItems(items, Links)|
    ensures counts.other == |FilterItems(items, Other)|
    ensures counts.all == |items|
    ensures counts.links + counts.other == counts.all
  {
    var links, other := 0, 0;
    for i := 0 to |items|
      invariant links == |KeepByLink(items[..i], true)|
      invariant other == |KeepByLink(items[..i], false)|
    {
      KeepAppend(items[..i], items[i], true);
      KeepAppend(items[..i], items[i], false);
      assert items[..i + 1] == items[..i] + [items[i]];
      if IsUrl(items[i].content) {
        links := links + 1;
      } else {
        other := other + 1;
      }
    }
    assert items[..|items|] == items;
    FilterPartition(items);
    counts := Counts(links, other, |items|);
  }
}
