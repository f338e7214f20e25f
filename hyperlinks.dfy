/**
 * Removing the links Slack wraps around e-mail addresses and phone numbers:
 * `<mailto:x@y.z|x@y.z>` and `<tel:5551234567|555-123-4567>` become their
 * display text. The two patterns are `<TAG\S+\|(\S+)>` with Python `re`
 * semantics: the leftmost match wins, both `\S+` are greedy and backtrack,
 * and `re.sub` replaces every match, left to right, without overlap.
 */
module Hyperlinks {
  import opened Wrappers
  import opened Text

  const MAILTO: string := "<mailto:"
  const TEL: string := "<tel:"

  /** One match of the pattern: where it starts, what the group captured, and where it ends. */
  datatype Match = Match(start: nat, group: string, end: nat)

  /** The end of the run of non-whitespace that begins at `i`. */
  function RunEnd(s: string, i: nat): (e: nat)
    requires i <= |s|
    ensures i <= e <= |s|
    ensures forall k :: i <= k < e ==> !IsSpace(s[k])
    ensures e < |s| ==> IsSpace(s[e])
    decreases |s| - i
  {
    if i == |s| || IsSpace(s[i]) then i else RunEnd(s, i + 1)
  }

  /** The last index in `[lo, hi)` that holds `c`. */
  function LastIndexIn(s: string, c: char, lo: nat, hi: nat): (r: Option<nat>)
    requires hi <= |s|
    ensures r.Some? ==> lo <= r.value < hi && s[r.value] == c
    ensures r.Some? ==> forall k :: r.value < k < hi ==> s[k] != c
    ensures r.None? ==> forall k :: lo <= k < hi ==> s[k] != c
    decreases hi
  {
    if hi <= lo then None
    else if s[hi - 1] == c then Some(hi - 1)
    else LastIndexIn(s, c, lo, hi - 1)
  }

  /**
   * `m` is a match of `TAG\S+\|(\S+)>` in `s`: the tag at `m.start`, at least one
   * character, `|`, the group (at least one character) and `>`, the part after
   * the tag free of whitespace.
   */
  predicate PatternAt(s: string, tag: string, m: Match) {
    && m.start + |tag| + 3 + |m.group| <= m.end <= |s|
    && OccursAt(s, tag, m.start)
    && m.group != []
    && s[m.end - |m.group| - 2] == '|'
    && s[m.end - |m.group| - 1..m.end - 1] == m.group
    && s[m.end - 1] == '>'
    && forall k :: m.start + |tag| <= k < m.end ==> !IsSpace(s[k])
  }

  /**
   * The match of the pattern that starts at `p`, if there is one. Greedy
   * backtracking ends the match at the last `>` of the non-whitespace run after
   * the tag, and cuts the group at the last `|` that leaves the first `\S+` and
   * the group at least one character each.
   */
  function MatchAt(s: string, p: nat, tag: string): (r: Option<Match>)
    requires p <= |s|
    ensures r.Some? ==> r.value.start == p && PatternAt(s, tag, r.value)
  {
    if !OccursAt(s, tag, p) then None
    else
      var q := p + |tag|;
      var e := RunEnd(s, q);
      match LastIndexIn(s, '>', q, e)
      case None => None
      case Some(g) =>
        if g < q + 3 then None
        else match LastIndexIn(s, '|', q + 1, g - 1)
        case None => None
        case Some(b) =>
          var m := Match(p, s[b + 1..g], g + 1);
          assert m.end - |m.group| - 2 == b;
          Some(m)
  }

  /**
   * Every match of the pattern at a position is found there, and the one found
   * is the greedy one: it ends at least as late as any other, and its group
   * starts at least as late.
   */
  lemma MatchAtComplete(s: string, tag: string, m: Match)
    requires PatternAt(s, tag, m)
    ensures MatchAt(s, m.start, tag).Some?
    ensures m.end <= MatchAt(s, m.start, tag).value.end
    ensures m.end - |m.group| <= MatchAt(s, m.start, tag).value.end - |MatchAt(s, m.start, tag).value.group|
  {
  }

  /** `re.search` finds a match wherever the pattern occurs: at that position or before. */
  lemma SearchComplete(s: string, tag: string, from: nat, m: Match)
    requires from <= m.start && PatternAt(s, tag, m)
    ensures Search(s, tag, from).Some? && Search(s, tag, from).value.start <= m.start
  {
    MatchAtComplete(s, tag, m);
  }

  /** A match holds a `|`. */
  lemma MatchHasBar(s: string, tag: string, m: Match)
    requires PatternAt(s, tag, m)
    ensures '|' in s
  {
    var b := m.end - |m.group| - 2;
    assert s[b] == '|';
  }

  /** A match begins with the tag's first character. */
  lemma OccursHead(s: string, t: string, k: nat)
    requires t != []
    ensures OccursAt(s, t, k) ==> s[k] == t[0]
  {
    if OccursAt(s, t, k) {
      assert s[k..k + |t|][0] == s[k];
    }
  }

  /** `re.search` from index `from` on: the leftmost match. */
  function Search(s: string, tag: string, from: nat): (r: Option<Match>)
    requires from <= |s|
    ensures r.Some? ==> from <= r.value.start <= |s|
    ensures r.Some? ==> MatchAt(s, r.value.start, tag) == r
    ensures r.Some? ==> forall p :: from <= p < r.value.start ==> MatchAt(s, p, tag).None?
    ensures r.None? ==> forall p :: from <= p <= |s| ==> MatchAt(s, p, tag).None?
    decreases |s| - from
  {
    if MatchAt(s, from, tag).Some? then MatchAt(s, from, tag)
    else if from == |s| then None
    else Search(s, tag, from + 1)
  }

  /**
   * `re.sub(pattern, repl, s[from:])`: every match from `from` on replaced by
   * `repl`, taken literally, as `re.sub` takes a replacement without a backslash.
   */
  function SubAll(s: string, tag: string, repl: string, from: nat): (r: string)
    requires from <= |s|
    ensures Search(s, tag, from).None? ==> r == s[from..]
    ensures Search(s, tag, from).Some? ==>
              IsPrefix(s[from..Search(s, tag, from).value.start] + repl, r)
    decreases |s| - from
  {
    match Search(s, tag, from)
    case None => s[from..]
    case Some(m) =>
      assert PatternAt(s, tag, m);
      s[from..m.start] + repl + SubAll(s, tag, repl, m.end)
  }

  /**
   * `purge_hyperlinks`: the first mailto link's display text replaces every
   * mailto link, then the first tel link's display text replaces every tel
   * link. Both searches look at the raw text; the second substitution works
   * on the result of the first.
   */
  function PurgeHyperlinks(raw: string): (r: string)
    ensures Search(raw, MAILTO, 0).None? && Search(raw, TEL, 0).None? ==> r == raw
  {
    var purged := match Search(raw, MAILTO, 0)
      case None => raw
      case Some(m) => SubAll(raw, MAILTO, m.group, 0);
    match Search(raw, TEL, 0)
    case None => purged
    case Some(m) => SubAll(purged, TEL, m.group, 0)
  }

  // ---------------------------------------------------------------- properties

  /** With no match left, substitution keeps the rest of the text as it is. */
  lemma SubNone(s: string, tag: string, repl: string, from: nat)
    requires from <= |s| && Search(s, tag, from).None?
    ensures SubAll(s, tag, repl, from) == s[from..]
  {
  }

  /** Text without `|` holds no match. */
  lemma NoBarNoMatch(s: string, tag: string, from: nat)
    requires from <= |s| && '|' !in s
    ensures Search(s, tag, from).None?
  {
    forall p | from <= p <= |s|
      ensures MatchAt(s, p, tag).None?
    {
      var r := MatchAt(s, p, tag);
      if r.Some? {
        MatchHasBar(s, tag, r.value);
      }
    }
  }

  /** Text without `|` has no link in it, so `purge_hyperlinks` leaves it alone. */
  lemma PurgeWithoutBar(raw: string)
    requires '|' !in raw
    ensures PurgeHyperlinks(raw) == raw
  {
    NoBarNoMatch(raw, MAILTO, 0);
    NoBarNoMatch(raw, TEL, 0);
  }

  /** Where no `<` follows `from`, no link starts. */
  lemma NoOpenNoMatch(s: string, tag: string, from: nat)
    requires from <= |s| && tag != [] && tag[0] == '<'
    requires forall k :: from <= k < |s| ==> s[k] != '<'
    ensures Search(s, tag, from).None?
  {
    forall p | from <= p <= |s|
      ensures MatchAt(s, p, tag).None?
    {
      OccursHead(s, tag, p);
    }
  }

  /** Text without `<` has no link in it either. */
  lemma PurgeWithoutOpen(raw: string)
    requires '<' !in raw
    ensures PurgeHyperlinks(raw) == raw
  {
    assert MAILTO[0] == '<' && TEL[0] == '<';
    NoOpenNoMatch(raw, MAILTO, 0);
    NoOpenNoMatch(raw, TEL, 0);
  }

  /** The text of one link: the tag, the target, `|`, the display text and `>`. */
  function Token(tag: string, target: string, display: string): string {
    tag + target + "|" + display + ">"
  }

  /**
   * A target and a display text the patterns take as written: non-empty, no
   * whitespace, no `<`, and no `|` in the display text. The display text also
   * holds no backslash, since `re.sub` reads backslashes in its replacement as
   * escapes and group references.
   */
  predicate LinkText(target: string, display: string) {
    && target != [] && NoSpace(target) && '<' !in target
    && display != [] && NoSpace(display) && '<' !in display && '|' !in display && '\\' !in display
  }

  /** A link with a `<`-tag, followed by the end of the text or by whitespace. */
  predicate LinkAt(tag: string, target: string, display: string, post: string) {
    tag != [] && tag[0] == '<' && LinkText(target, display) && (post == [] || IsSpace(post[0]))
  }

  /** Where the parts of `pre + Token(tag, target, display) + post` sit. */
  lemma LinkLayout(pre: string, tag: string, target: string, display: string, post: string)
    ensures var s := pre + Token(tag, target, display) + post;
      var q := |pre| + |tag|;
      var bar := q + |target|;
      var e := bar + |display| + 2;
      && e == |pre| + |Token(tag, target, display)| && e <= |s|
      && s[..|pre|] == pre && s[|pre|..q] == tag && s[q..bar] == target
      && s[bar] == '|' && s[bar + 1..e - 1] == display && s[e - 1] == '>' && s[e..] == post
  {
    var s := pre + Token(tag, target, display) + post;
    assert s == pre + tag + target + ['|'] + display + ['>'] + post;
  }

  /** The characters of a slice are the characters of the string at those indices. */
  lemma SliceChars(s: string, lo: nat, hi: nat, k: nat)
    requires lo <= k < hi <= |s|
    ensures s[k] == s[lo..hi][k - lo]
  {
  }

  /** A lone link is matched from its `<` to its `>`, and the group is its display text. */
  lemma LoneLinkMatch(pre: string, tag: string, target: string, display: string, post: string)
    requires LinkAt(tag, target, display, post) && '<' !in pre
    ensures var s := pre + Token(tag, target, display) + post;
      Search(s, tag, 0) == Some(Match(|pre|, display, |pre| + |Token(tag, target, display)|))
  {
    var s := pre + Token(tag, target, display) + post;
    LoneLinkMatchAt(pre, tag, target, display, post);
    LinkLayout(pre, tag, target, display, post);
    NoOpenBefore(s, tag, |pre|);
    SearchFinds(s, tag, |pre|);
  }

  /** The search finds the first start at which the pattern matches. */
  lemma SearchFinds(s: string, tag: string, p: nat)
    requires p <= |s| && MatchAt(s, p, tag).Some?
    requires forall k :: 0 <= k < p ==> MatchAt(s, k, tag).None?
    ensures Search(s, tag, 0) == MatchAt(s, p, tag)
  {
  }

  /** No match starts before `p` when no `<` does. */
  lemma NoOpenBefore(s: string, tag: string, p: nat)
    requires p <= |s| && tag != [] && tag[0] == '<' && '<' !in s[..p]
    ensures forall k :: 0 <= k < p ==> MatchAt(s, k, tag).None?
  {
    forall k | 0 <= k < p
      ensures MatchAt(s, k, tag).None?
    {
      OccursHead(s, tag, k);
      SliceChars(s, 0, p, k);
    }
  }

  /** At the `<` of a lone link the pattern matches the whole link. */
  lemma LoneLinkMatchAt(pre: string, tag: string, target: string, display: string, post: string)
    requires LinkAt(tag, target, display, post)
    ensures var s := pre + Token(tag, target, display) + post;
      MatchAt(s, |pre|, tag) == Some(Match(|pre|, display, |pre| + |Token(tag, target, display)|))
  {
    LinkLayout(pre, tag, target, display, post);
    LinkMatchAt(pre + Token(tag, target, display) + post, |pre|, tag, target, display, post);
  }

  /** The same, for a text given by where its parts sit. */
  lemma LinkMatchAt(s: string, p: nat, tag: string, target: string, display: string, post: string)
    requires LinkAt(tag, target, display, post)
    requires var q := p + |tag|;
      var bar := q + |target|;
      var e := bar + |display| + 2;
      && e <= |s| && s[p..q] == tag && s[q..bar] == target
      && s[bar] == '|' && s[bar + 1..e - 1] == display && s[e - 1] == '>' && s[e..] == post
    ensures MatchAt(s, p, tag) == Some(Match(p, display, p + |tag| + |target| + |display| + 2))
  {
    var q := p + |tag|;
    var bar := q + |target|;
    var e := bar + |display| + 2;
    assert OccursAt(s, tag, p);
    LinkRun(s, q, bar, e, target, display);
    if e < |s| {
      assert s[e] == s[e..][0];
    }
    MatchAtRun(s, tag, p, bar, e);
  }

  /**
   * The pattern matches from `p` to `e` with its group after `bar` when the tag
   * sits at `p`, `e` ends the run of non-whitespace after it, `e - 1` holds `>`,
   * and `bar` holds the last `|` before the group.
   */
  lemma MatchAtRun(s: string, tag: string, p: nat, bar: nat, e: nat)
    requires p + |tag| < bar && bar + 3 <= e <= |s|
    requires OccursAt(s, tag, p)
    requires forall k :: p + |tag| <= k < e ==> !IsSpace(s[k])
    requires e < |s| ==> IsSpace(s[e])
    requires s[bar] == '|' && s[e - 1] == '>'
    requires forall k :: bar < k < e - 1 ==> s[k] != '|'
    ensures MatchAt(s, p, tag) == Some(Match(p, s[bar + 1..e - 1], e))
  {
    var q := p + |tag|;
    RunEndIs(s, q, e);
    LastIndexIs(s, '>', q, e, e - 1);
    LastIndexIs(s, '|', q + 1, e - 2, bar);
    MatchAtOf(s, tag, p, bar, e);
  }

  /** The match at `p` in terms of where the run ends and where its last `>` and `|` sit. */
  lemma MatchAtOf(s: string, tag: string, p: nat, bar: nat, e: nat)
    requires p + |tag| < bar && bar + 3 <= e <= |s| && OccursAt(s, tag, p)
    requires RunEnd(s, p + |tag|) == e
    requires LastIndexIn(s, '>', p + |tag|, e) == Some(e - 1)
    requires LastIndexIn(s, '|', p + |tag| + 1, e - 2) == Some(bar)
    ensures MatchAt(s, p, tag) == Some(Match(p, s[bar + 1..e - 1], e))
  {
  }

  /** A run of non-whitespace that whitespace or the end of the text closes ends there. */
  lemma {:induction false} RunEndIs(s: string, i: nat, e: nat)
    requires i <= e <= |s|
    requires forall k :: i <= k < e ==> !IsSpace(s[k])
    requires e < |s| ==> IsSpace(s[e])
    ensures RunEnd(s, i) == e
    decreases e - i
  {
    if i < e {
      RunEndIs(s, i + 1, e);
    }
  }

  /** The last `c` in `[lo, hi)` is the one no other `c` follows. */
  lemma {:induction false} LastIndexIs(s: string, c: char, lo: nat, hi: nat, j: nat)
    requires lo <= j < hi <= |s| && s[j] == c
    requires forall k :: j < k < hi ==> s[k] != c
    ensures LastIndexIn(s, c, lo, hi) == Some(j)
    decreases hi
  {
    if j < hi - 1 {
      LastIndexIs(s, c, lo, hi - 1, j);
    }
  }

  /** After the tag a link is one run of non-whitespace, with no `|` in its display text. */
  lemma LinkRun(s: string, q: nat, bar: nat, e: nat, target: string, display: string)
    requires q <= bar && bar + 2 <= e <= |s|
    requires s[q..bar] == target && NoSpace(target)
    requires s[bar] == '|' && s[bar + 1..e - 1] == display && s[e - 1] == '>'
    requires NoSpace(display) && '|' !in display
    ensures forall k :: q <= k < e ==> !IsSpace(s[k])
    ensures forall k :: bar < k < e - 1 ==> s[k] != '|'
  {
    forall k | q <= k < e
      ensures !IsSpace(s[k]) && (bar < k < e - 1 ==> s[k] != '|')
    {
      if k < bar {
        SliceChars(s, q, bar, k);
      } else if bar < k < e - 1 {
        SliceChars(s, bar + 1, e - 1, k);
      }
    }
  }

  /** A link no other match of its tag follows is replaced by `repl`, and the text around it stays. */
  lemma LinkSub(pre: string, tag: string, target: string, display: string, post: string, repl: string)
    requires LinkAt(tag, target, display, post) && '<' !in pre && !Contains(post, tag)
    ensures SubAll(pre + Token(tag, target, display) + post, tag, repl, 0) == pre + repl + post
  {
    var s := pre + Token(tag, target, display) + post;
    var e := |pre| + |Token(tag, target, display)|;
    LoneLinkMatch(pre, tag, target, display, post);
    LinkLayout(pre, tag, target, display, post);
    forall k | e <= k <= |s|
      ensures MatchAt(s, k, tag).None?
    {
      OccursShift(s, post, tag, e, k);
      NotContains(post, tag, k - e);
    }
    SubNone(s, tag, repl, e);
  }

  /** An occurrence in the tail of a text is an occurrence in the tail itself. */
  lemma OccursShift(s: string, post: string, t: string, e: nat, k: nat)
    requires e <= k && e <= |s| && s[e..] == post
    ensures OccursAt(s, t, k) ==> OccursAt(post, t, k - e)
  {
    if OccursAt(s, t, k) {
      forall j | 0 <= j < |t|
        ensures post[k - e..k - e + |t|][j] == t[j]
      {
        assert post[k - e + j] == s[e..][k - e + j] == s[k + j] == s[k..k + |t|][j];
      }
    }
  }

  /** A text without `<` holds no tag that begins with `<`. */
  lemma NoOpenNoContains(s: string, tag: string)
    requires tag != [] && tag[0] == '<' && '<' !in s
    ensures !Contains(s, tag)
  {
    forall k | 0 <= k <= |s|
      ensures !OccursAt(s, tag, k)
    {
      OccursHead(s, tag, k);
    }
  }

  /** After the first link of a `register` text comes no match of the first tag. */
  lemma RestWithoutFirstTag(tag1: string, tag2: string, mid: string, a2: string, b2: string, post: string)
    requires TwoTags(tag1, tag2) && '<' !in mid && '<' !in post && LinkText(a2, b2)
    ensures !Contains(mid + Token(tag2, a2, b2) + post, tag1)
  {
    var t2 := Token(tag2, a2, b2);
    var rest := mid + t2 + post;
    var p := |mid|;
    var e := p + |t2|;
    TokenOpens(tag2, a2, b2);
    assert rest[..p] == mid && rest[p..e] == t2 && rest[e..] == post;
    forall k | 0 <= k <= |rest|
      ensures !OccursAt(rest, tag1, k)
    {
      OccursSecond(rest, tag1, k);
      if k < p {
        SliceChars(rest, 0, p, k);
      } else if k == p {
        SliceChars(rest, p, e, k + 1);
      } else if k < e {
        SliceChars(rest, p, e, k);
        assert t2[k - p] == t2[1..][k - p - 1];
      } else if k < |rest| {
        SliceChars(rest, e, |rest|, k);
      }
    }
  }

  /** A tag that begins with `<` occurs only where `<` is followed by the tag's second character. */
  lemma OccursSecond(s: string, t: string, k: nat)
    requires |t| >= 2
    ensures OccursAt(s, t, k) ==> s[k] == t[0] && s[k + 1] == t[1]
  {
    if OccursAt(s, t, k) {
      assert s[k..k + |t|][0] == s[k] && s[k..k + |t|][1] == s[k + 1];
    }
  }

  /** No match starts in `[lo, hi)` when its only `<` is not followed by the tag's second character. */
  lemma NoOccurrence(s: string, tag: string, lo: nat, hi: nat, k0: nat)
    requires |tag| >= 2 && tag[0] == '<' && lo <= hi <= |s|
    requires forall k :: lo <= k < hi && s[k] == '<' ==> k == k0
    requires lo <= k0 < hi && k0 + 1 < |s| ==> s[k0 + 1] != tag[1]
    ensures forall k :: lo <= k < hi ==> MatchAt(s, k, tag).None?
  {
    forall k | lo <= k < hi
      ensures MatchAt(s, k, tag).None?
    {
      OccursSecond(s, tag, k);
    }
  }

  /** No match from `from` on means the search finds nothing. */
  lemma SearchNone(s: string, tag: string, from: nat)
    requires from <= |s| && tag != []
    requires forall k :: from <= k < |s| ==> MatchAt(s, k, tag).None?
    ensures Search(s, tag, from).None?
  {
    assert !OccursAt(s, tag, |s|);
  }

  /** A text in which the tag never occurs has no match. */
  lemma SearchNoTag(s: string, tag: string)
    requires tag != [] && forall k :: 0 <= k < |s| ==> !OccursAt(s, tag, k)
    ensures Search(s, tag, 0).None?
  {
    SearchNone(s, tag, 0);
  }

  /** The only `<` of a link is its first character, and the second is the tag's. */
  lemma TokenOpens(tag: string, target: string, display: string)
    requires |tag| >= 2 && '<' !in tag[1..] && '<' !in target && '<' !in display
    ensures var t := Token(tag, target, display);
      t[0] == tag[0] && t[1] == tag[1] && '<' !in t[1..]
  {
    var t := Token(tag, target, display);
    assert t[1..] == tag[1..] + target + "|" + display + ">";
  }

  /** Where the parts of the text of a `register` command sit. */
  lemma TwoLinkLayout(pre: string, t1: string, mid: string, t2: string, post: string)
    ensures var raw := pre + t1 + mid + t2 + post;
      var e1 := |pre| + |t1|;
      var p2 := e1 + |mid|;
      var e2 := p2 + |t2|;
      && e2 + |post| == |raw|
      && raw[..|pre|] == pre && raw[|pre|..e1] == t1 && raw[e1..p2] == mid
      && raw[p2..e2] == t2 && raw[e2..] == post && raw[e1..] == mid + t2 + post
  {
  }

  /** In the text of a `register` command, `<` opens the two links and nothing else. */
  lemma TwoLinkOpens(pre: string, t1: string, mid: string, t2: string, post: string)
    requires '<' !in pre && '<' !in mid && '<' !in post
    requires t1 != [] && '<' !in t1[1..] && t2 != [] && '<' !in t2[1..]
    ensures var raw := pre + t1 + mid + t2 + post;
      forall k :: 0 <= k < |raw| && raw[k] == '<' ==> k == |pre| || k == |pre| + |t1| + |mid|
  {
    var raw := pre + t1 + mid + t2 + post;
    var e1 := |pre| + |t1|;
    var p2 := e1 + |mid|;
    var e2 := p2 + |t2|;
    TwoLinkLayout(pre, t1, mid, t2, post);
    forall k | 0 <= k < |raw|
      ensures raw[k] == '<' ==> k == |pre| || k == p2
    {
      if k < |pre| {
        SliceChars(raw, 0, |pre|, k);
      } else if |pre| < k < e1 {
        SliceChars(raw, |pre|, e1, k);
        assert t1[k - |pre|] == t1[1..][k - |pre| - 1];
      } else if e1 <= k < p2 {
        SliceChars(raw, e1, p2, k);
      } else if p2 < k < e2 {
        SliceChars(raw, p2, e2, k);
        assert t2[k - p2] == t2[1..][k - p2 - 1];
      } else if e2 <= k {
        SliceChars(raw, e2, |raw|, k);
      }
    }
  }

  /**
   * The `register` case: a mailto link and then a tel link, each followed by
   * whitespace or the end, and no other `<`. Both links give way to their
   * display texts and everything else stays.
   */
  lemma PurgeMailThenTel(pre: string, a1: string, b1: string, mid: string, a2: string, b2: string, post: string)
    requires '<' !in pre && '<' !in mid && '<' !in post
    requires LinkText(a1, b1) && LinkText(a2, b2)
    requires mid != [] && IsSpace(mid[0]) && (post == [] || IsSpace(post[0]))
    ensures PurgeHyperlinks(pre + Token(MAILTO, a1, b1) + mid + Token(TEL, a2, b2) + post)
         == pre + b1 + mid + b2 + post
  {
    assert MAILTO[1..] == "mailto:" && TEL[1..] == "tel:";
    assert TwoTags(MAILTO, TEL);
    var t2 := Token(TEL, a2, b2);
    var rest := mid + t2 + post;
    // the mailto step
    Regroup(pre, Token(MAILTO, a1, b1), mid, t2, post);
    assert rest[0] == mid[0];
    LoneLinkMatch(pre, MAILTO, a1, b1, rest);
    RestWithoutFirstTag(MAILTO, TEL, mid, a2, b2, post);
    LinkSub(pre, MAILTO, a1, b1, rest, b1);
    // the tel step
    SecondLinkStep(MAILTO, TEL, pre, a1, b1, mid, a2, b2, post);
    Regroup(pre, b1, mid, t2, post);
    NoOpenNoContains(post, TEL);
    LinkSub(pre + b1 + mid, TEL, a2, b2, post, b2);
  }

  /**
   * A lone mailto link, followed by whitespace or the end, gives way to its
   * display text; the tel pattern finds nothing.
   */
  lemma PurgeLoneMail(pre: string, a: string, b: string, post: string)
    requires '<' !in pre && '<' !in post && LinkText(a, b) && (post == [] || IsSpace(post[0]))
    ensures PurgeHyperlinks(pre + Token(MAILTO, a, b) + post) == pre + b + post
  {
    assert MAILTO[1..] == "mailto:" && TEL[1..] == "tel:";
    LoneLinkMatch(pre, MAILTO, a, b, post);
    NoOpenNoContains(post, MAILTO);
    LinkSub(pre, MAILTO, a, b, post, b);
    OtherTagNone(MAILTO, TEL, pre, a, b, post);
  }

  /** The whole parameter text is one mailto link. */
  lemma PurgeMailOnly(a: string, b: string)
    requires LinkText(a, b)
    ensures PurgeHyperlinks(Token(MAILTO, a, b)) == b
  {
    PurgeLoneMail([], a, b, []);
    Bare(Token(MAILTO, a, b));
  }

  /** Empty text on both sides of a text, proved apart from the contexts that use it. */
  lemma Bare(s: string)
    ensures [] + s + [] == s
  {
  }

  /** The mailto tag is lower-case and holds no whitespace and no `|`. */
  lemma MailtoPlain()
    ensures MAILTO != [] && NoSpace(MAILTO) && '|' !in MAILTO && IsLower(MAILTO)
  {
  }

  /** A text whose only `<` opens a link of one tag holds no match of a tag with another second character. */
  lemma OtherTagNone(tag: string, other: string, pre: string, a: string, b: string, post: string)
    requires |tag| >= 2 && '<' !in tag[1..] && |other| >= 2 && other[0] == '<' && tag[1] != other[1]
    requires '<' !in pre && '<' !in post && LinkText(a, b)
    ensures Search(pre + Token(tag, a, b) + post, other, 0).None?
  {
    var t := Token(tag, a, b);
    var raw := pre + t + post;
    var e := |pre| + |t|;
    TokenOpens(tag, a, b);
    assert raw[..|pre|] == pre && raw[|pre|..e] == t && raw[e..] == post;
    forall k | 0 <= k < |raw|
      ensures raw[k] == '<' ==> k == |pre|
    {
      if k < |pre| {
        SliceChars(raw, 0, |pre|, k);
      } else if |pre| < k < e {
        SliceChars(raw, |pre|, e, k);
        assert t[k - |pre|] == t[1..][k - |pre| - 1];
      } else if e <= k {
        SliceChars(raw, e, |raw|, k);
      }
    }
    SliceChars(raw, |pre|, e, |pre| + 1);
    NoOccurrence(raw, other, 0, |raw|, |pre|);
    SearchNone(raw, other, 0);
  }

  /** Re-grouping a five-part text, proved apart from the contexts that use it. */
  lemma Regroup(a: string, b: string, c: string, d: string, e: string)
    ensures a + b + (c + d + e) == a + b + c + d + e
  {
  }

  /** Two tags that open with `<`, hold no other `<`, and differ in their second character. */
  predicate TwoTags(tag1: string, tag2: string) {
    && |tag1| >= 2 && tag1[0] == '<' && '<' !in tag1[1..]
    && |tag2| >= 2 && tag2[0] == '<' && '<' !in tag2[1..]
    && tag1[1] != tag2[1]
  }

  /** The facts about the `register` text the two steps below share. */
  lemma TwoLinkFacts(tag1: string, tag2: string, pre: string, a1: string, b1: string, mid: string, a2: string, b2: string, post: string)
    requires TwoTags(tag1, tag2) && '<' !in pre && '<' !in mid && '<' !in post
    requires LinkText(a1, b1) && LinkText(a2, b2)
    ensures var t1 := Token(tag1, a1, b1);
      var t2 := Token(tag2, a2, b2);
      var raw := pre + t1 + mid + t2 + post;
      var p2 := |pre| + |t1| + |mid|;
      && p2 + 1 < |raw| && |pre| + 1 < |raw|
      && raw[|pre| + 1] == tag1[1] && raw[p2 + 1] == tag2[1]
      && (forall k :: 0 <= k < |raw| && raw[k] == '<' ==> k == |pre| || k == p2)
  {
    var t1 := Token(tag1, a1, b1);
    var t2 := Token(tag2, a2, b2);
    var raw := pre + t1 + mid + t2 + post;
    var p2 := |pre| + |t1| + |mid|;
    TwoLinkLayout(pre, t1, mid, t2, post);
    TokenOpens(tag1, a1, b1);
    TokenOpens(tag2, a2, b2);
    TwoLinkOpens(pre, t1, mid, t2, post);
    SliceChars(raw, |pre|, |pre| + |t1|, |pre| + 1);
    SliceChars(raw, p2, p2 + |t2|, p2 + 1);
  }

  /** In the `register` case the first match of the second tag is the second link. */
  lemma SecondLinkStep(tag1: string, tag2: string, pre: string, a1: string, b1: string, mid: string, a2: string, b2: string, post: string)
    requires TwoTags(tag1, tag2) && '<' !in pre && '<' !in mid && '<' !in post
    requires LinkText(a1, b1) && LinkText(a2, b2)
    requires post == [] || IsSpace(post[0])
    ensures var raw := pre + Token(tag1, a1, b1) + mid + Token(tag2, a2, b2) + post;
      Search(raw, tag2, 0).Some? && Search(raw, tag2, 0).value.group == b2
  {
    var t1 := Token(tag1, a1, b1);
    var t2 := Token(tag2, a2, b2);
    var raw := pre + t1 + mid + t2 + post;
    var p2 := |pre + t1 + mid|;
    SecondLinkMatch(tag1, tag2, pre, a1, b1, mid, a2, b2, post);
    SecondLinkFirst(tag1, tag2, pre, a1, b1, mid, a2, b2, post);
    SearchFinds(raw, tag2, p2);
  }

  /** The second tag matches at the second link, and its group is that link's display text. */
  lemma SecondLinkMatch(tag1: string, tag2: string, pre: string, a1: string, b1: string, mid: string, a2: string, b2: string, post: string)
    requires TwoTags(tag1, tag2) && LinkText(a2, b2)
    requires post == [] || IsSpace(post[0])
    ensures var head := pre + Token(tag1, a1, b1) + mid;
      var raw := head + Token(tag2, a2, b2) + post;
      MatchAt(raw, |head|, tag2) == Some(Match(|head|, b2, |head| + |Token(tag2, a2, b2)|))
  {
    LoneLinkMatchAt(pre + Token(tag1, a1, b1) + mid, tag2, a2, b2, post);
  }

  /** The second tag matches nowhere before the second link. */
  lemma SecondLinkFirst(tag1: string, tag2: string, pre: string, a1: string, b1: string, mid: string, a2: string, b2: string, post: string)
    requires TwoTags(tag1, tag2) && '<' !in pre && '<' !in mid && '<' !in post
    requires LinkText(a1, b1) && LinkText(a2, b2)
    ensures var t1 := Token(tag1, a1, b1);
      var raw := pre + t1 + mid + Token(tag2, a2, b2) + post;
      var p2 := |pre| + |t1| + |mid|;
      forall k :: 0 <= k < p2 ==> MatchAt(raw, k, tag2).None?
  {
    var t1 := Token(tag1, a1, b1);
    var raw := pre + t1 + mid + Token(tag2, a2, b2) + post;
    var p2 := |pre| + |t1| + |mid|;
    TwoLinkFacts(tag1, tag2, pre, a1, b1, mid, a2, b2, post);
    NoOccurrence(raw, tag2, 0, p2, |pre|);
  }

  /** The search from `from` finds the first start from there on at which the pattern matches. */
  lemma SearchFindsFrom(s: string, tag: string, from: nat, p: nat)
    requires from <= p <= |s| && MatchAt(s, p, tag).Some?
    requires forall k :: from <= k < p ==> MatchAt(s, k, tag).None?
    ensures Search(s, tag, from) == MatchAt(s, p, tag)
  {
  }

  /**
   * Two mailto links, each followed by whitespace or the end, and no other
   * `<`: `re.sub` is given the first link's display text, so both links give
   * way to it and the second link's display text is lost.
   */
  lemma PurgeTwoMails(pre: string, a1: string, b1: string, mid: string, a2: string, b2: string, post: string)
    requires '<' !in pre && '<' !in mid && '<' !in post
    requires LinkText(a1, b1) && LinkText(a2, b2)
    requires mid != [] && IsSpace(mid[0]) && (post == [] || IsSpace(post[0]))
    ensures PurgeHyperlinks(pre + Token(MAILTO, a1, b1) + mid + Token(MAILTO, a2, b2) + post)
         == pre + b1 + mid + b1 + post
  {
    assert MAILTO[1..] == "mailto:" && TEL[1..] == "tel:";
    var t2 := Token(MAILTO, a2, b2);
    var rest := mid + t2 + post;
    Regroup(pre, Token(MAILTO, a1, b1), mid, t2, post);
    assert rest[0] == mid[0];
    LoneLinkMatch(pre, MAILTO, a1, b1, rest);
    SameLinksSub(MAILTO, pre, a1, b1, mid, a2, b2, post, b1);
    SameLinksOtherNone(MAILTO, TEL, pre, a1, b1, mid, a2, b2, post);
  }

  /** Substitution over two links of one tag, with no other `<`, replaces both. */
  lemma SameLinksSub(tag: string, pre: string, a1: string, b1: string, mid: string, a2: string, b2: string, post: string, repl: string)
    requires |tag| >= 2 && tag[0] == '<' && '<' !in pre && '<' !in mid && '<' !in post
    requires LinkText(a1, b1) && LinkText(a2, b2)
    requires mid != [] && IsSpace(mid[0]) && (post == [] || IsSpace(post[0]))
    ensures SubAll(pre + Token(tag, a1, b1) + mid + Token(tag, a2, b2) + post, tag, repl, 0)
         == pre + repl + mid + repl + post
  {
    var t1 := Token(tag, a1, b1);
    var t2 := Token(tag, a2, b2);
    var raw := pre + t1 + mid + t2 + post;
    var rest := mid + t2 + post;
    var e1 := |pre| + |t1|;
    Regroup(pre, t1, mid, t2, post);
    assert rest[0] == mid[0];
    assert pre[0..] == pre;
    FindLinkFrom(pre, 0, tag, a1, b1, rest);
    TwoLinkLayout(pre, t1, mid, t2, post);
    assert (pre + t1 + mid)[e1..] == mid;
    LinkSubFrom(pre + t1 + mid, e1, tag, a2, b2, post, repl);
    SubAllStep(raw, tag, repl, 0, |pre|, e1, mid + repl + post);
    Regroup(pre, repl, mid, repl, post);
  }

  /** From `from` on, the search finds the link that follows `h`. */
  lemma FindLinkFrom(h: string, from: nat, tag: string, a: string, b: string, rest: string)
    requires from <= |h| && '<' !in h[from..] && LinkAt(tag, a, b, rest)
    ensures Search(h + Token(tag, a, b) + rest, tag, from) == Some(Match(|h|, b, |h| + |Token(tag, a, b)|))
  {
    var s := h + Token(tag, a, b) + rest;
    LoneLinkMatchAt(h, tag, a, b, rest);
    LinkLayout(h, tag, a, b, rest);
    assert s[from..|h|] == h[from..];
    NoOpenBetween(s, tag, from, |h|);
    SearchFindsFrom(s, tag, from, |h|);
  }

  /** From `from` on, substitution replaces the one link that follows `h` and keeps the rest. */
  lemma LinkSubFrom(h: string, from: nat, tag: string, a: string, b: string, post: string, repl: string)
    requires from <= |h| && '<' !in h[from..] && '<' !in post && LinkAt(tag, a, b, post)
    ensures SubAll(h + Token(tag, a, b) + post, tag, repl, from) == h[from..] + repl + post
  {
    var s := h + Token(tag, a, b) + post;
    var e := |h| + |Token(tag, a, b)|;
    FindLinkFrom(h, from, tag, a, b, post);
    LinkLayout(h, tag, a, b, post);
    NoOpenAfter(s, post, tag, e);
    SubNone(s, tag, repl, e);
    SubAllStep(s, tag, repl, from, |h|, e, post);
    assert s[from..|h|] == h[from..];
  }

  /** No match starts in `[lo, hi)` when no `<` lies there. */
  lemma NoOpenBetween(s: string, tag: string, lo: nat, hi: nat)
    requires lo <= hi <= |s| && tag != [] && tag[0] == '<' && '<' !in s[lo..hi]
    ensures forall k :: lo <= k < hi ==> MatchAt(s, k, tag).None?
  {
    forall k | lo <= k < hi
      ensures MatchAt(s, k, tag).None?
    {
      OccursHead(s, tag, k);
      SliceChars(s, lo, hi, k);
    }
  }

  /** No match starts in a tail without `<`. */
  lemma NoOpenAfter(s: string, post: string, tag: string, e: nat)
    requires e <= |s| && s[e..] == post && tag != [] && tag[0] == '<' && '<' !in post
    ensures forall k :: e <= k <= |s| ==> MatchAt(s, k, tag).None?
  {
    NoOpenNoContains(post, tag);
    forall k | e <= k <= |s|
      ensures MatchAt(s, k, tag).None?
    {
      OccursShift(s, post, tag, e, k);
      NotContains(post, tag, k - e);
    }
  }

  /** One step of substitution: the text up to the match found, the replacement, and the rest substituted. */
  lemma SubAllStep(s: string, tag: string, repl: string, from: nat, start: nat, end: nat, tail: string)
    requires from <= |s| && Search(s, tag, from).Some?
    requires Search(s, tag, from).value.start == start && Search(s, tag, from).value.end == end
    requires end <= |s| && SubAll(s, tag, repl, end) == tail
    ensures from <= start <= end
    ensures SubAll(s, tag, repl, from) == s[from..start] + repl + tail
  {
    assert PatternAt(s, tag, Search(s, tag, from).value);
  }

  /** Two links of one tag, with no other `<`, hold no match of a tag with another second character. */
  lemma SameLinksOtherNone(tag: string, other: string, pre: string, a1: string, b1: string, mid: string, a2: string, b2: string, post: string)
    requires |tag| >= 2 && '<' !in tag[1..] && |other| >= 2 && other[0] == '<' && tag[1] != other[1]
    requires '<' !in pre && '<' !in mid && '<' !in post && LinkText(a1, b1) && LinkText(a2, b2)
    ensures Search(pre + Token(tag, a1, b1) + mid + Token(tag, a2, b2) + post, other, 0).None?
  {
    var t1 := Token(tag, a1, b1);
    var t2 := Token(tag, a2, b2);
    var raw := pre + t1 + mid + t2 + post;
    var e1 := |pre| + |t1|;
    var p2 := e1 + |mid|;
    TwoLinkLayout(pre, t1, mid, t2, post);
    TokenOpens(tag, a1, b1);
    TokenOpens(tag, a2, b2);
    TwoLinkOpens(pre, t1, mid, t2, post);
    SliceChars(raw, |pre|, e1, |pre| + 1);
    SliceChars(raw, p2, p2 + |t2|, p2 + 1);
    forall k | 0 <= k < |raw|
      ensures !OccursAt(raw, other, k)
    {
      OccursSecond(raw, other, k);
    }
    SearchNoTag(raw, other);
  }
}
