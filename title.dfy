/**
 * The file name the exports are saved under: the document title (or
 * "document" when it is empty), every run of characters other than ASCII
 * letters, digits, `_` and `-` replaced by one `_`, cut to 80 characters.
 */
module Title {
  import opened Wrappers

  /** `[\w\-]`: an ASCII letter, digit, underscore or hyphen. */
  predicate IsNameChar(c: char) {
    ('A' <= c <= 'Z') || ('a' <= c <= 'z') || ('0' <= c <= '9') || c == '_' || c == '-'
  }

  predicate AllNameChars(s: string) {
    forall i :: 0 <= i < |s| ==> IsNameChar(s[i])
  }

  /** The rest of `s` once the run of other characters at its front is gone. */
  function SkipOthers(s: string): (r: string)
    ensures |r| <= |s| && r == s[|s| - |r|..]
    ensures r != [] ==> IsNameChar(r[0])
  {
    if s != [] && !IsNameChar(s[0]) then SkipOthers(s[1..]) else s
  }

  /** `s.replace(/[^\w\-]+/g, "_")`. */
  function Sanitize(s: string): (r: string)
    ensures AllNameChars(r)
    ensures |r| <= |s|
    ensures r == [] <==> s == []
    decreases |s|
  {
    if s == [] then []
    else if IsNameChar(s[0]) then [s[0]] + Sanitize(s[1..])
    else "_" + Sanitize(SkipOthers(s))
  }

  /** `.slice(0, 80)`. */
  function Cut(s: string, n: nat): (r: string)
    ensures |r| == if |s| <= n then |s| else n
    ensures r == s[..|r|]
  {
    if |s| <= n then s else s[..n]
  }

  const MaxTitle: nat := 80

  /** `safeTitle`. */
  function SafeTitle(title: string): string {
    Cut(Sanitize(OrElse(title, "document")), MaxTitle)
  }

  // ---------------------------------------------------------------------------
  // Properties
  // ---------------------------------------------------------------------------

  /** A file name of 1 to 80 letters, digits, underscores and hyphens. */
  lemma SafeTitleShape(title: string)
    ensures var r := SafeTitle(title);
      0 < |r| <= MaxTitle && AllNameChars(r)
  {
    var r := SafeTitle(title);
    var s := Sanitize(OrElse(title, "document"));
    assert r == s[..|r|];
    forall i | 0 <= i < |r| ensures IsNameChar(r[i]) {
      assert r[i] == s[i];
    }
  }

  /** An empty title saves as "document". */
  lemma EmptyTitle()
    ensures SafeTitle("") == "document"
  {
    NameUnchanged("document");
  }

  /** Letters, digits, underscores and hyphens pass through unchanged. */
  lemma {:induction false} NameUnchanged(s: string)
    requires AllNameChars(s)
    ensures Sanitize(s) == s
    decreases |s|
  {
    if s != [] {
      assert AllNameChars(s[1..]) by {
        forall i | 0 <= i < |s[1..]| ensures IsNameChar(s[1..][i]) {
          assert s[1..][i] == s[i + 1];
        }
      }
      NameUnchanged(s[1..]);
    }
  }

  /** A title that is already a short clean name is its own file name. */
  lemma CleanTitleKept(title: string)
    requires title != [] && |title| <= MaxTitle && AllNameChars(title)
    ensures SafeTitle(title) == title
  {
    NameUnchanged(title);
  }

  /** Sanitising twice is sanitising once, and so is taking the file name of a file name. */
  lemma SafeTitleIdempotent(title: string)
    ensures SafeTitle(SafeTitle(title)) == SafeTitle(title)
  {
    var r := SafeTitle(title);
    SafeTitleShape(title);
    NameUnchanged(r);
  }

  /** A run of other characters, however long, becomes a single underscore. */
  lemma RunBecomesOneUnderscore(pre: string, others: string, post: string)
    requires AllNameChars(pre) && others != [] && (forall i :: 0 <= i < |others| ==> !IsNameChar(others[i]))
    requires post != [] && IsNameChar(post[0])
    ensures Sanitize(pre + others + post) == pre + "_" + Sanitize(post)
  {
    assert pre + others + post == pre + (others + post);
    NamePrefixKept(pre, others + post);
    var s := others + post;
    assert s[0] == others[0];
    SkipRun(others, post);
    assert Sanitize(s) == "_" + Sanitize(post);
  }

  /** A clean prefix passes through unchanged, whatever follows it. */
  lemma {:induction false} NamePrefixKept(pre: string, rest: string)
    requires AllNameChars(pre)
    ensures Sanitize(pre + rest) == pre + Sanitize(rest)
    decreases |pre|
  {
    if pre != [] {
      var s := pre + rest;
      assert s[0] == pre[0] && s[1..] == pre[1..] + rest;
      assert AllNameChars(pre[1..]) by {
        forall i | 0 <= i < |pre[1..]| ensures IsNameChar(pre[1..][i]) {
          assert pre[1..][i] == pre[i + 1];
        }
      }
      NamePrefixKept(pre[1..], rest);
      AppendAssoc([pre[0]], pre[1..], Sanitize(rest));
      assert [pre[0]] + pre[1..] == pre;
    } else {
      assert pre + rest == rest;
    }
  }

  lemma {:induction false} SkipRun(others: string, post: string)
    requires (forall i :: 0 <= i < |others| ==> !IsNameChar(others[i]))
    requires post != [] && IsNameChar(post[0])
    ensures SkipOthers(others + post) == post
    decreases |others|
  {
    if others != [] {
      assert (others + post)[1..] == others[1..] + post;
      assert forall i :: 0 <= i < |others[1..]| ==> others[1..][i] == others[i + 1];
      SkipRun(others[1..], post);
    } else {
      assert others + post == post;
    }
  }

  /** Two words separated by a colon and a space are joined by one underscore. */
  lemma ColonSeparated(a: string, b: string)
    requires a != [] && b != [] && AllNameChars(a) && AllNameChars(b) && |a| + 1 + |b| <= MaxTitle
    ensures SafeTitle(a + ": " + b) == a + "_" + b
  {
    var others := ": ";
    assert others[0] == ':' && others[1] == ' ';
    RunBecomesOneUnderscore(a, others, b);
    NameUnchanged(b);
  }

  /** A long clean title is cut to its first 80 characters. */
  lemma LongTitleCut(title: string)
    requires |title| > MaxTitle && AllNameChars(title)
    ensures SafeTitle(title) == title[..MaxTitle]
  {
    NameUnchanged(title);
  }
}
