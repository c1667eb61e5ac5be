/**
 * The main process's clipboard history (src/main.ts): a module-level array
 * of entries, new captures inserted at the head, entries deleted or edited
 * by id over IPC; plus the two pieces of string logic the main process has,
 * the OAuth callback page and the `smartclip://` launch argument.
 */
module LocalHistory {
  import opened Common
  import opened Strings
  import opened Domain

  // ---------------------------------------------------------------------------
  // The history as a value: what each handler makes of it.

  /** `content.trim()` is falsy: the capture ignores this text. */
  predicate IsBlank(content: string)
  {
    Trim(content) == ""
  }

  /** The entry a capture creates (`type: 'text'`, untrimmed content). */
  function NewTextItem(id: string, content: string, now: int): Item
  {
    Item(id, content, now, Text, None, None)
  }

  /** The history after `handleClipboardCopy` read `content` from the clipboard. */
  function Captured(history: seq<Item>, content: string, id: string, now: int): (r: seq<Item>)
    ensures AllWhitespace(content) ==> r == history
    ensures !AllWhitespace(content) ==>
      |r| == |history| + 1 && r[0] == NewTextItem(id, content, now) && r[1..] == history
  {
    TrimEmptyIff(content);
    if IsBlank(content) then history else [NewTextItem(id, content, now)] + history
  }

  /** The history after `delete-clipboard-item`: the first entry with `id` spliced out. */
  function Removed(history: seq<Item>, id: string): (r: seq<Item>)
    ensures |r| == if HasId(history, id) then |history| - 1 else |history|
  {
    if history == [] then []
    else if history[0].id == id then history[1..]
    else
      HasIdCons(history, id);
      [history[0]] + Removed(history[1..], id)
  }

  /** The history after `update-clipboard-item`: the first entry with `id` gets new content and timestamp. */
  function Updated(history: seq<Item>, id: string, content: string, now: int): (r: seq<Item>)
    ensures |r| == |history|
    ensures forall k | 0 <= k < |r| ::
      r[k].id == history[k].id && r[k].kind == history[k].kind
      && r[k].createdAt == history[k].createdAt && r[k].isFavorite == history[k].isFavorite
  {
    if history == [] then []
    else if history[0].id == id then [history[0].(content := content, timestamp := now)] + history[1..]
    else
      var rest := Updated(history[1..], id, content, now);
      assert forall k | 0 < k <= |rest| :: ([history[0]] + rest)[k] == rest[k - 1];
      [history[0]] + rest
  }

  /** An id is in a non-empty history when it is the head's or it is in the tail. */
  lemma HasIdCons(history: seq<Item>, id: string)
    requires history != []
    ensures HasId(history, id) <==> history[0].id == id || HasId(history[1..], id)
  {
    if HasId(history, id) && history[0].id != id {
      var k :| 0 <= k < |history| && history[k].id == id;
      assert history[1..][k - 1].id == id;
    }
    if HasId(history[1..], id) {
      var k :| 0 <= k < |history[1..]| && history[1..][k].id == id;
      assert history[k + 1].id == id;
    }
  }

  /** Deleting a present id removes exactly the entry `findIndex` finds and keeps the rest in order. */
  lemma {:induction false} RemovedAt(history: seq<Item>, id: string, i: int)
    requires IsFirstIndex(history, id, i)
    ensures Removed(history, id) == history[..i] + history[i + 1..]
  {
    if i > 0 {
      var tail := history[1..];
      assert history[0].id != id;
      assert IsFirstIndex(tail, id, i - 1) by {
        forall k | 0 <= k < i - 1 ensures tail[k].id != id {
          assert tail[k] == history[k + 1];
        }
      }
      RemovedAt(tail, id, i - 1);
      var lhs := [history[0]] + (tail[..i - 1] + tail[i..]);
      assert Removed(history, id) == lhs;
      forall k | 0 <= k < |lhs| ensures lhs[k] == (history[..i] + history[i + 1..])[k] {
        if 0 < k < i {
          assert lhs[k] == tail[k - 1];
        } else if k >= i {
          assert lhs[k] == tail[k];
        }
      }
      assert lhs == history[..i] + history[i + 1..];
    }
  }

  /** Deleting an absent id leaves the history as it was. */
  lemma {:induction false} RemovedAbsent(history: seq<Item>, id: string)
    requires !HasId(history, id)
    ensures Removed(history, id) == history
  {
    if history != [] {
      assert history[0].id != id;
      HasIdCons(history, id);
      RemovedAbsent(history[1..], id);
      assert [history[0]] + history[1..] == history;
    }
  }

  /** Updating a present id changes that one entry's content and timestamp, nothing else. */
  lemma {:induction false} UpdatedAt(history: seq<Item>, id: string, content: string, now: int, i: int)
    requires IsFirstIndex(history, id, i)
    ensures Updated(history, id, content, now)
      == history[i := history[i].(content := content, timestamp := now)]
  {
    if i > 0 {
      var tail := history[1..];
      assert history[0].id != id;
      assert IsFirstIndex(tail, id, i - 1) by {
        forall k | 0 <= k < i - 1 ensures tail[k].id != id {
          assert tail[k] == history[k + 1];
        }
      }
      UpdatedAt(tail, id, content, now, i - 1);
      var u := history[i].(content := content, timestamp := now);
      var lhs := [history[0]] + tail[i - 1 := u];
      assert Updated(history, id, content, now) == lhs;
      forall k | 0 <= k < |history| ensures lhs[k] == history[i := u][k] {
        if k > 0 { assert lhs[k] == tail[i - 1 := u][k - 1]; }
      }
      assert lhs == history[i := u];
    }
  }

  /** Updating an absent id leaves the history as it was. */
  lemma {:induction false} UpdatedAbsent(history: seq<Item>, id: string, content: string, now: int)
    requires !HasId(history, id)
    ensures Updated(history, id, content, now) == history
  {
    if history != [] {
      assert history[0].id != id;
      HasIdCons(history, id);
      UpdatedAbsent(history[1..], id, content, now);
      assert [history[0]] + history[1..] == history;
    }
  }

  /** Entries are ordered by capture time, newest first. */
  predicate NewestFirst(history: seq<Item>)
  {
    forall i, j | 0 <= i < j < |history| :: history[i].timestamp >= history[j].timestamp
  }

  /**
   * With a clock that does not run backwards, capturing keeps the history
   * newest first, since entries are only ever inserted at the head.
   */
  lemma CaptureKeepsNewestFirst(history: seq<Item>, content: string, id: string, now: int)
    requires NewestFirst(history)
    requires forall k | 0 <= k < |history| :: history[k].timestamp <= now
    ensures NewestFirst(Captured(history, content, id, now))
  {
    var r := Captured(history, content, id, now);
    if !AllWhitespace(content) {
      forall i, j | 0 <= i < j < |r| ensures r[i].timestamp >= r[j].timestamp {
        assert r[j] == history[j - 1];
        if i > 0 { assert r[i] == history[i - 1]; }
      }
    }
  }

  /** Splicing one entry out keeps the history newest first. */
  lemma SpliceKeepsNewestFirst(history: seq<Item>, i: int)
    requires NewestFirst(history) && 0 <= i < |history|
    ensures NewestFirst(history[..i] + history[i + 1..])
  {
    var r := history[..i] + history[i + 1..];
    forall a, b | 0 <= a < b < |r| ensures r[a].timestamp >= r[b].timestamp {
      var a' := if a < i then a else a + 1;
      var b' := if b < i then b else b + 1;
      assert r[a] == history[a'] && r[b] == history[b'];
    }
  }

  /** Deleting keeps the history newest first. */
  lemma RemoveKeepsNewestFirst(history: seq<Item>, id: string)
    requires NewestFirst(history)
    ensures NewestFirst(Removed(history, id))
  {
    if HasId(history, id) {
      var i := FirstIndexOf(history, id);
      RemovedAt(history, id, i);
      SpliceKeepsNewestFirst(history, i);
    } else {
      RemovedAbsent(history, id);
    }
  }

  /** The index of the first entry with `id`, when there is one. */
  function FirstIndexOf(history: seq<Item>, id: string): (i: nat)
    requires HasId(history, id)
    ensures IsFirstIndex(history, id, i)
  {
    if history[0].id == id then 0
    else
      HasIdCons(history, id);
      1 + FirstIndexOf(history[1..], id)
  }

  // ---------------------------------------------------------------------------
  // The history as the main process keeps it.

  /** `clipboardHistory.findIndex(item => item.id === id)`. */
  method FindIndex(items: seq<Item>, id: string) returns (index: int)
    ensures index == -1 <==> !HasId(items, id)
    ensures index != -1 ==> IsFirstIndex(items, id, index)
  {
    index := 0;
    while index < |items|
      invariant 0 <= index <= |items|
      invariant forall k | 0 <= k < index :: items[k].id != id
    {
      if items[index].id == id {
        return;
      }
      index := index + 1;
    }
    index := -1;
  }

  /** The module-level `clipboardHistory` array and its IPC handlers. */
  class HistoryStore {
    var items: seq<Item>

    constructor ()
      ensures items == []
    {
      items := [];
    }

    /** `handleClipboardCopy`: the clipboard text, a fresh id and the clock come in as arguments. */
    method Capture(content: string, id: string, now: int) returns (stored: bool)
      modifies this
      ensures stored <==> !AllWhitespace(content)
      ensures items == Captured(old(items), content, id, now)
    {
      TrimEmptyIff(content);
      stored := !IsBlank(content);
      if stored {
        items := [NewTextItem(id, content, now)] + items;
      }
    }

    /** `get-clipboard-history`: the stored list as it is. */
    method GetHistory() returns (history: seq<Item>)
      ensures history == items
    {
      history := items;
    }

    /** `delete-clipboard-item`: reports whether an entry with `id` was found and removed. */
    method Delete(id: string) returns (found: bool)
      modifies this
      ensures found <==> HasId(old(items), id)
      ensures items == Removed(old(items), id)
    {
      var index := FindIndex(items, id);
      if index != -1 {
        RemovedAt(items, id, index);
        items := items[..index] + items[index + 1..];
        found := true;
      } else {
        RemovedAbsent(items, id);
        found := false;
      }
    }

    /** `update-clipboard-item`: reports whether an entry with `id` was found and edited. */
    method Update(id: string, newContent: string, now: int) returns (found: bool)
      modifies this
      ensures found <==> HasId(old(items), id)
      ensures items == Updated(old(items), id, newContent, now)
    {
      var index := FindIndex(items, id);
      if index != -1 {
        UpdatedAt(items, id, newContent, now, index);
        items := items[index := items[index].(content := newContent, timestamp := now)];
        found := true;
      } else {
        UpdatedAbsent(items, id, newContent, now);
        found := false;
      }
    }
  }

  // ---------------------------------------------------------------------------
  // The `smartclip://` launch argument.

  const ProtocolPrefix: string := "smartclip://"

  /** The `open-url` handler acts on a URL only when it starts with the protocol prefix. */
  predicate IsProtocolUrl(url: string)
  {
    StartsWith(url, ProtocolPrefix)
  }

  /** `commandLine.find(arg => arg.startsWith('smartclip://'))` in the `second-instance` handler. */
  function FindProtocolUrl(args: seq<string>): (r: Option<string>)
    ensures r.None? <==> forall k | 0 <= k < |args| :: !IsProtocolUrl(args[k])
    ensures r.Some? ==> exists i | 0 <= i < |args| ::
      (args[i] == r.value && IsProtocolUrl(args[i]) && forall k | 0 <= k < i :: !IsProtocolUrl(args[k]))
  {
    if args == [] then None
    else if IsProtocolUrl(args[0]) then Some(args[0])
    else
      var r := FindProtocolUrl(args[1..]);
      assert r.Some? ==> exists i | 0 <= i < |args| ::
        (args[i] == r.value && IsProtocolUrl(args[i]) && forall k | 0 <= k < i :: !IsProtocolUrl(args[k])) by {
        if r.Some? {
          var j :| 0 <= j < |args[1..]| && args[1..][j] == r.value && IsProtocolUrl(args[1..][j])
            && forall k | 0 <= k < j :: !IsProtocolUrl(args[1..][k]);
          assert args[j + 1] == r.value;
          forall k | 0 <= k < j + 1 ensures !IsProtocolUrl(args[k]) {
            if k > 0 { assert args[k] == args[1..][k - 1]; }
          }
        }
      }
      r
  }

  /** The URL a second launch hands to the auth-callback handler, if any. */
  lemma SecondInstanceHandlesProtocolUrl(args: seq<string>, url: string)
    requires FindProtocolUrl(args) == Some(url)
    ensures url != "" && StartsWith(url, "smartclip://")
  {
  }

  // ---------------------------------------------------------------------------
  // The OAuth callback page.

  /** The `{status, statusText, message}` filled into the callback page. */
  datatype CallbackText = CallbackText(status: string, statusText: string, message: string)

  /** Chooses the page text from the callback's `error` query value. */
  function CallbackTextFor(error: Option<string>): (t: CallbackText)
    ensures t.status == "error" <==> Truthy(error)
    ensures t.status == "success" <==> !Truthy(error)
    ensures t.statusText == (if Truthy(error) then "fallida" else "exitosa")
    ensures Truthy(error) ==> t.message == "Error: " + error.value
    ensures !Truthy(error) ==> t.message == "Puedes cerrar esta ventana."
  {
    if Truthy(error) then CallbackText("error", "fallida", "Error: " + error.value)
    else CallbackText("success", "exitosa", "Puedes cerrar esta ventana.")
  }

  /** The status and status text never hold a `$`, so replacing them is the same either way. */
  lemma StatusTextsPlain(error: Option<string>)
    ensures '$' !in CallbackTextFor(error).status && '$' !in CallbackTextFor(error).statusText
  {
    var t := CallbackTextFor(error);
    if Truthy(error) {
      assert t.status == ['e', 'r', 'r', 'o', 'r'] && t.statusText == ['f', 'a', 'l', 'l', 'i', 'd', 'a'];
    } else {
      assert t.status == ['s', 'u', 'c', 'c', 'e', 's', 's'] && t.statusText == ['e', 'x', 'i', 't', 'o', 's', 'a'];
    }
  }

  /** The template once `{{status}}` and then `{{statusText}}` are filled in. */
  function StatusFilled(template: string, error: Option<string>): string
  {
    var t := CallbackTextFor(error);
    ReplaceFirst(ReplaceFirst(template, "{{status}}", t.status), "{{statusText}}", t.statusText)
  }

  /**
   * The callback page exactly as the handler builds it: three
   * `String.prototype.replace` calls with string arguments, so `$` patterns
   * in the message (which carries the query's `error` value) are expanded.
   */
  function FillCallbackPageAsWritten(template: string, error: Option<string>): string
  {
    var t := CallbackTextFor(error);
    JsReplaceFirst(JsReplaceFirst(JsReplaceFirst(template, "{{status}}", t.status),
      "{{statusText}}", t.statusText), "{{message}}", t.message)
  }

  /** The callback page with each placeholder's first occurrence replaced by the text itself. */
  function FillCallbackPage(template: string, error: Option<string>): (page: string)
    ensures '$' !in CallbackTextFor(error).message ==> page == FillCallbackPageAsWritten(template, error)
  {
    var t := CallbackTextFor(error);
    StatusTextsPlain(error);
    ReplaceFirst(ReplaceFirst(ReplaceFirst(template, "{{status}}", t.status),
      "{{statusText}}", t.statusText), "{{message}}", t.message)
  }

  /**
   * As written, the first `{{message}}` left after the status fills is
   * replaced by the message with its `$` patterns expanded against that text;
   * without one the page is the status-filled template.
   */
  lemma FillCallbackPageAsWrittenExpands(template: string, error: Option<string>)
    ensures var t1 := StatusFilled(template, error);
      var i := IndexOf(t1, "{{message}}");
      && (i == -1 ==> FillCallbackPageAsWritten(template, error) == t1)
      && (i >= 0 ==>
            (i + 11 <= |t1| && FillCallbackPageAsWritten(template, error)
               == t1[..i] + ExpandReplacement(CallbackTextFor(error).message, t1, i, "{{message}}") + t1[i + 11..]))
  {
    var t := CallbackTextFor(error);
    StatusTextsPlain(error);
    var t0 := JsReplaceFirst(template, "{{status}}", t.status);
    assert t0 == ReplaceFirst(template, "{{status}}", t.status);
    var t1 := JsReplaceFirst(t0, "{{statusText}}", t.statusText);
    assert t1 == StatusFilled(template, error);
    assert FillCallbackPageAsWritten(template, error) == JsReplaceFirst(t1, "{{message}}", t.message);
  }

  /**
   * The corrected fill puts the message itself in place of the first
   * `{{message}}` left after the status fills, and keeps the text around it.
   */
  lemma FillCallbackPageShowsMessage(template: string, error: Option<string>)
    ensures var t1 := StatusFilled(template, error);
      var i := IndexOf(t1, "{{message}}");
      && (i == -1 ==> FillCallbackPage(template, error) == t1)
      && (i >= 0 ==>
            (i + 11 <= |t1| && FillCallbackPage(template, error) == t1[..i] + CallbackTextFor(error).message + t1[i + 11..]))
  {
  }

  /** A placeholder: two opening braces, then text without another opening brace. */
  predicate BraceOpened(p: string)
  {
    |p| >= 3 && p[0] == '{' && p[1] == '{' && forall i | 2 <= i < |p| :: p[i] != '{'
  }

  lemma PlaceholdersBraceOpened()
    ensures BraceOpened("{{message}}") && BraceOpened("{{status}}") && BraceOpened("{{statusText}}")
    ensures "{{message}}"[2] == 'm' && "{{status}}"[2] == 's' && "{{statusText}}"[2] == 's'
  {
  }

  /** Occurrences of two placeholders that differ in their third character never overlap. */
  lemma PlaceholdersApart(s: string, p: string, q: string, j: int, k: int)
    requires BraceOpened(p) && BraceOpened(q) && p[2] != q[2]
    requires OccursAt(s, p, j) && OccursAt(s, q, k)
    ensures k + |q| <= j || j + |p| <= k
  {
    assert forall i | j <= i < j + |p| :: s[i] == p[i - j] by {
      forall i | j <= i < j + |p| ensures s[i] == p[i - j] { assert s[j..j + |p|][i - j] == s[i]; }
    }
    assert forall i | k <= i < k + |q| :: s[i] == q[i - k] by {
      forall i | k <= i < k + |q| ensures s[i] == q[i - k] { assert s[k..k + |q|][i - k] == s[i]; }
    }
    assert s[j + 2] == p[2] && s[k + 2] == q[2];
  }

  /** Replacing the first `pat` keeps an occurrence of `q` that does not overlap it. */
  lemma ReplaceKeepsApart(s: string, pat: string, repl: string, q: string, k: int)
    requires OccursAt(s, q, k)
    requires IndexOf(s, pat) >= 0 ==>
      (k + |q| <= IndexOf(s, pat) || IndexOf(s, pat) + |pat| <= k)
    ensures Contains(ReplaceFirst(s, pat, repl), q)
  {
    var r := ReplaceFirst(s, pat, repl);
    var j := IndexOf(s, pat);
    if j == -1 {
      ContainsIff(s, q);
    } else if k + |q| <= j {
      assert r[k..k + |q|] == s[..j][k..k + |q|];
      assert OccursAt(r, q, k);
      ContainsIff(r, q);
    } else {
      var pre, post := s[..j] + repl, s[j + |pat|..];
      assert r == pre + post;
      var d := k - j - |pat|;
      assert r[|pre| + d..|pre| + d + |q|] == post[d..d + |q|];
      assert post[d..d + |q|] == s[k..k + |q|];
      assert OccursAt(r, q, |pre| + d);
      ContainsIff(r, q);
    }
  }

  /**
   * Filling `{{status}}` or `{{statusText}}` never destroys a `{{message}}`:
   * the placeholders cannot overlap, so a template holding `{{message}}` still
   * holds it after either replacement.
   */
  lemma MessagePlaceholderSurvives(s: string, pat: string, repl: string)
    requires pat == "{{status}}" || pat == "{{statusText}}"
    requires Contains(s, "{{message}}")
    ensures Contains(ReplaceFirst(s, pat, repl), "{{message}}")
  {
    var k := IndexOf(s, "{{message}}");
    PlaceholdersBraceOpened();
    if IndexOf(s, pat) >= 0 {
      PlaceholdersApart(s, pat, "{{message}}", IndexOf(s, pat), k);
    }
    ReplaceKeepsApart(s, pat, repl, "{{message}}", k);
  }

  /** A template holding `{{message}}` still holds it once the status placeholders are filled. */
  lemma MessageSurvivesStatusFill(template: string, error: Option<string>)
    requires Contains(template, "{{message}}")
    ensures Contains(StatusFilled(template, error), "{{message}}")
  {
    var t := CallbackTextFor(error);
    MessagePlaceholderSurvives(template, "{{status}}", t.status);
    MessagePlaceholderSurvives(ReplaceFirst(template, "{{status}}", t.status), "{{statusText}}", t.statusText);
  }

  /**
   * As written, a message made of `$`-free text followed by `$&` shows that
   * text followed by the placeholder itself, since `$&` stands for the match.
   */
  lemma MessageMatchExpands(template: string, error: Option<string>, a: string)
    requires CallbackTextFor(error).message == a + "$&" && '$' !in a
    requires Contains(template, "{{message}}")
    ensures var t1 := StatusFilled(template, error);
      var i := IndexOf(t1, "{{message}}");
      && 0 <= i && i + 11 <= |t1|
      && FillCallbackPageAsWritten(template, error) == t1[..i] + (a + "{{message}}") + t1[i + 11..]
  {
    var t1 := StatusFilled(template, error);
    MessageSurvivesStatusFill(template, error);
    FillCallbackPageAsWrittenExpands(template, error);
    ExpandMatchAfterText(a, t1, IndexOf(t1, "{{message}}"), "{{message}}");
  }

  /**
   * An `error` value of `$&` makes the page show the placeholder itself
   * instead of the error, in every template that holds `{{message}}`, while
   * the corrected fill shows the error text there.
   */
  lemma CallbackPageDollarCounterexample(template: string, error: string)
    requires error == "$&" && Contains(template, "{{message}}")
    ensures var t1 := StatusFilled(template, Some(error));
      var i := IndexOf(t1, "{{message}}");
      && 0 <= i && i + 11 <= |t1|
      && FillCallbackPageAsWritten(template, Some(error)) == t1[..i] + ("Error: " + "{{message}}") + t1[i + 11..]
      && FillCallbackPage(template, Some(error)) == t1[..i] + ("Error: " + error) + t1[i + 11..]
  {
    assert '$' !in "Error: " by { assert "Error: " == ['E', 'r', 'r', 'o', 'r', ':', ' ']; }
    MessageMatchExpands(template, Some(error), "Error: ");
    FillCallbackPageShowsMessage(template, Some(error));
  }
}
