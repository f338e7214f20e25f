/**
 * How a mention of the bot becomes a keyword and its parameters
 * (`keyword_and_params_from_text`, `without_first_word`,
 * `params_string_to_dict`), in the current bot and in the earlier one that
 * did not un-wrap links first.
 */
module Parser {
  import opened Wrappers
  import opened Text
  import opened Model
  import Hyperlinks

  /** What the parse of a message comes to. */
  datatype Parse =
    | Unparsed                                  // `(None, None)`: the text has no space
    | Parsed(keyword: string, params: Params)
    | DictFailed                                // `dict()` raised `ValueError`, which nothing catches

  /** `without_first_word`: the text after the first space, stripped; `None` when there is no space. */
  function WithoutFirstWord(s: string): (r: Option<string>)
    ensures r.None? <==> ' ' !in s
  {
    if ' ' in s then Some(Strip(SplitOnce(s, ' ')[1])) else None
  }

  /** The part of `keyword_and_params_from_text` both bots share: the keyword and the text after it, if any. */
  function SplitCommand(text: string): (r: Option<(string, Option<string>)>)
    ensures r.None? <==> ' ' !in text
    ensures r.Some? ==> ' ' !in r.value.0 && IsLower(r.value.0)
  {
    match WithoutFirstWord(text)
    case None => None
    case Some(rest) =>
      var parts := SplitOnce(Lower(rest), ' ');
      SplitOnceLower(rest, ' ');
      Some((parts[0], if |parts| == 2 then Some(parts[1]) else None))
  }

  /** What a parameter text becomes: a field map when it holds `|`, the text itself otherwise. */
  function ParamsOf(p: string): (r: Option<Params>)
    ensures '|' !in p ==> r == Some(FreeText(p))
    ensures '|' in p ==> r.Some? == ParamsStringToDictSpec(p).Some?
    ensures '|' in p && r.Some? ==> r.value == FieldMap(ParamsStringToDictSpec(p).value)
  {
    if '|' in p then
      match ParamsStringToDictSpec(p)
      case None => None
      case Some(m) => Some(FieldMap(m))
    else Some(FreeText(p))
  }

  /** `keyword_and_params_from_text` of the current bot: links are un-wrapped before the `|` test. */
  function KeywordAndParams(text: string): (r: Parse)
    ensures r.Unparsed? <==> ' ' !in text
  {
    match SplitCommand(text)
    case None => Unparsed
    case Some((keyword, None)) => Parsed(keyword, NoParams)
    case Some((keyword, Some(rest))) =>
      match ParamsOf(Hyperlinks.PurgeHyperlinks(rest))
      case None => DictFailed
      case Some(params) => Parsed(keyword, params)
  }

  /** `keyword_and_params_from_text` of the earlier bot, which does not un-wrap links. */
  function LegacyKeywordAndParams(text: string): (r: Parse)
    ensures r.Unparsed? <==> ' ' !in text
  {
    match SplitCommand(text)
    case None => Unparsed
    case Some((keyword, None)) => Parsed(keyword, NoParams)
    case Some((keyword, Some(rest))) =>
      match ParamsOf(rest)
      case None => DictFailed
      case Some(params) => Parsed(keyword, params)
  }

  // ---------------------------------------------------------------- fields

  /** One `|`-separated segment, stripped and cut at its first space. */
  function Field(segment: string): (r: seq<string>)
    ensures 1 <= |r| <= 2
    ensures |r| == 2 <==> ' ' in Strip(segment)
  {
    SplitOnce(Strip(segment), ' ')
  }

  /** The list comprehension that builds `fields`. */
  function FieldsOf(segments: seq<string>): (r: seq<seq<string>>)
    ensures |r| == |segments|
    ensures forall k :: 0 <= k < |r| ==> r[k] == Field(segments[k])
  {
    seq(|segments|, k requires 0 <= k < |segments| => Field(segments[k]))
  }

  /** A field `dict()` cannot take: it is not a name and a value. */
  predicate Bad(f: seq<string>) {
    |f| != 2
  }

  predicate WellFormed(fs: seq<seq<string>>) {
    forall k :: 0 <= k < |fs| ==> !Bad(fs[k])
  }

  /**
   * Whether the loop that removes malformed fields while iterating over the
   * list, resumed at position `k` of the original list, removes every one:
   * removing a field shifts the next one under the iterator, so that one is
   * never looked at.
   */
  function Clean(fs: seq<seq<string>>, k: nat): bool
    decreases |fs| - k
  {
    if k >= |fs| then true
    else if !Bad(fs[k]) then Clean(fs, k + 1)
    else if k + 1 < |fs| && Bad(fs[k + 1]) then false
    else Clean(fs, k + 2)
  }

  /** The well-formed fields, in order. */
  function Good(fs: seq<seq<string>>): (r: seq<seq<string>>)
    ensures WellFormed(r)
  {
    if fs == [] then []
    else
      var rest := Good(fs[..|fs| - 1]);
      assert fs == fs[..|fs| - 1] + [fs[|fs| - 1]];
      if Bad(fs[|fs| - 1]) then rest else rest + [fs[|fs| - 1]]
  }

  /** `dict(fields)` on well-formed fields: each name maps to its value, later fields overriding earlier ones. */
  function BuildMap(fs: seq<seq<string>>): map<string, string>
    requires WellFormed(fs)
    decreases |fs|
  {
    if fs == [] then map[]
    else BuildMap(fs[..|fs| - 1])[fs[|fs| - 1][0] := fs[|fs| - 1][1]]
  }

  /** `dict(fields)`: `None` stands for the `ValueError` a malformed field raises. */
  function DictOf(fs: seq<seq<string>>): Option<map<string, string>> {
    if WellFormed(fs) then Some(BuildMap(fs)) else None
  }

  /** What `params_string_to_dict` returns, or `None` where it raises. */
  function FieldsOutcome(fs: seq<seq<string>>): Option<map<string, string>> {
    if Clean(fs, 0) then Some(BuildMap(Good(fs))) else None
  }

  function ParamsStringToDictSpec(p: string): (r: Option<map<string, string>>)
    ensures r.None? ==> exists j :: AdjacentBad(FieldsOf(Split(p, '|')), j)
    ensures (exists j :: AdjacentBad(FieldsOf(Split(p, '|')), j)) ==> r.None?
    ensures r.Some? ==> r.value == BuildMap(Good(FieldsOf(Split(p, '|'))))
  {
    var fs := FieldsOf(Split(p, '|'));
    FieldsOutcomeShape(fs);
    assert FieldsOutcome(fs).None? <==> exists j :: AdjacentBad(fs, j);
    FieldsOutcome(fs)
  }

  /** `list.index(x)`. */
  function FirstIndex<T(==)>(xs: seq<T>, x: T): (j: nat)
    requires x in xs
    ensures j < |xs| && xs[j] == x && x !in xs[..j]
  {
    if xs[0] == x then 0
    else
      var j := FirstIndex(xs[1..], x);
      assert xs[..j + 1] == [xs[0]] + xs[1..][..j];
      j + 1
  }

  /** `list.remove(x)`: drop the first element equal to `x`. */
  function RemoveFirst<T(==)>(xs: seq<T>, x: T): (r: seq<T>)
    requires x in xs
    ensures |r| == |xs| - 1
  {
    var j := FirstIndex(xs, x);
    xs[..j] + xs[j + 1..]
  }

  /**
   * What holds each time the loop of `params_string_to_dict` tests its
   * condition: `i` is the iterator's index into the current list `fields`,
   * `k` the position in the original list `orig` of the field under it, and
   * `clean` says no malformed field has been passed over yet. The fields not
   * yet reached are the original ones; while `clean`, the fields passed are
   * the well-formed ones met so far, and otherwise one of them is malformed.
   */
  ghost predicate LoopInv(fields: seq<seq<string>>, i: nat, orig: seq<seq<string>>, k: nat, clean: bool) {
    && i <= |fields| + 1 && k <= |orig| + 1
    && (i <= |fields| ==> k <= |orig| && fields[i..] == orig[k..])
    && (i == |fields| + 1 ==> k == |orig| + 1)
    && (clean ==> fields[..Min(i, |fields|)] == Good(orig[..Min(k, |orig|)]))
    && (!clean ==> exists j :: 0 <= j < Min(i, |fields|) && Bad(fields[j]))
    && (clean && Clean(orig, k)) == Clean(orig, 0)
  }

  /**
   * `params_string_to_dict`, loop as written: walk the list with an index,
   * remove each malformed field (the first equal one) when it is met, then
   * hand the list to `dict()`. Its result is the one `FieldsOutcome` gives.
   */
  method ParamsStringToDict(params: string) returns (r: Option<map<string, string>>)
    ensures r == ParamsStringToDictSpec(params)
  {
    var fields := FieldsOf(Split(params, '|'));
    ghost var orig := fields;
    ghost var k := 0;
    ghost var clean := true;
    var i := 0;
    InitInv(orig);
    while i < |fields|
      invariant LoopInv(fields, i, orig, k, clean)
      decreases |fields| - i + 1
    {
      var field := fields[i];
      if Bad(field) {
        ghost var clean' := clean && !(k + 1 < |orig| && Bad(orig[k + 1]));
        RemoveStep(fields, i, orig, k, clean, clean');
        fields := RemoveFirst(fields, field);
        clean := clean';
        k := k + 2;
      } else {
        KeepStep(fields, i, orig, k, clean);
        k := k + 1;
      }
      i := i + 1;
    }
    r := DictOf(fields);
    FinalList(fields, i, orig, k, clean);
  }

  /** Before the loop nothing has been passed. */
  lemma InitInv(orig: seq<seq<string>>)
    ensures LoopInv(orig, 0, orig, 0, true)
  {
  }

  function Min(a: int, b: int): int {
    if a < b then a else b
  }

  /** Good fields are kept in the order the walk meets them. */
  lemma GoodStep(fs: seq<seq<string>>, k: nat)
    requires k < |fs|
    ensures Good(fs[..k + 1]) == if Bad(fs[k]) then Good(fs[..k]) else Good(fs[..k]) + [fs[k]]
  {
    assert fs[..k + 1][..k] == fs[..k];
  }

  /** The loop step that meets a well-formed field keeps the loop's invariant. */
  lemma KeepStep(fields: seq<seq<string>>, i: nat, orig: seq<seq<string>>, k: nat, clean: bool)
    requires LoopInv(fields, i, orig, k, clean) && i < |fields| && !Bad(fields[i])
    ensures LoopInv(fields, i + 1, orig, k + 1, clean)
  {
    assert fields[i] == fields[i..][0] == orig[k];
    assert fields[i + 1..] == fields[i..][1..];
    GoodStep(orig, k);
    assert fields[..i + 1] == fields[..i] + [fields[i]];
  }

  /** The loop step that meets a malformed field keeps the loop's invariant. */
  lemma RemoveStep(fields: seq<seq<string>>, i: nat, orig: seq<seq<string>>, k: nat, clean: bool, clean': bool)
    requires LoopInv(fields, i, orig, k, clean) && i < |fields| && Bad(fields[i])
    requires clean' == (clean && !(k + 1 < |orig| && Bad(orig[k + 1])))
    ensures LoopInv(RemoveFirst(fields, fields[i]), i + 1, orig, k + 2, clean')
  {
    assert fields[i] == fields[i..][0] == orig[k];
    assert |fields| - i == |orig| - k;
    if clean {
      RemoveClean(fields, i, orig, k);
    } else {
      RemoveDirty(fields, i, orig, k);
    }
  }

  /** Before a malformed field is passed over, `remove` takes the field under the iterator. */
  lemma RemoveClean(fields: seq<seq<string>>, i: nat, orig: seq<seq<string>>, k: nat)
    requires i < |fields| && k < |orig| && fields[i..] == orig[k..] && Bad(fields[i])
    requires fields[..i] == Good(orig[..k]) && Clean(orig, k) == Clean(orig, 0)
    ensures LoopInv(RemoveFirst(fields, fields[i]), i + 1, orig, k + 2, !(k + 1 < |orig| && Bad(orig[k + 1])))
  {
    var f := fields[i];
    assert f !in fields[..i] by {
      assert WellFormed(fields[..i]);
    }
    FirstIndexAt(fields, f, i);
    var after := RemoveFirst(fields, f);
    assert after == fields[..i] + fields[i + 1..];
    TailsAgree(fields, i, orig, k);
    GoodStep(orig, k);
    if k + 1 < |orig| {
      RemoveCleanNext(fields, i, orig, k, after);
    } else {
      assert after == fields[..i];
      assert Min(i + 1, |after|) == i && Min(k + 2, |orig|) == k + 1;
      assert orig[..k + 1] == orig;
    }
  }

  /** `RemoveClean` when a field follows the removed one: it moves under the iterator and is passed over. */
  lemma RemoveCleanNext(fields: seq<seq<string>>, i: nat, orig: seq<seq<string>>, k: nat, after: seq<seq<string>>)
    requires i < |fields| && k + 1 < |orig| && fields[i..] == orig[k..] && Bad(orig[k])
    requires fields[..i] == Good(orig[..k]) && Clean(orig, k) == Clean(orig, 0)
    requires Good(orig[..k + 1]) == Good(orig[..k])
    requires after == fields[..i] + fields[i + 1..]
    ensures LoopInv(after, i + 1, orig, k + 2, !Bad(orig[k + 1]))
  {
    TailsAgree(fields, i, orig, k);
    TailsAgree(fields, i + 1, orig, k + 1);
    GoodStep(orig, k + 1);
    assert after[..i + 1] == fields[..i] + [orig[k + 1]];
    assert after[i + 1..] == fields[i + 2..];
    assert Min(i + 1, |after|) == i + 1 && Min(k + 2, |orig|) == k + 2;
    assert after[i] == orig[k + 1];
  }

  /** Two lists that agree from `i` and from `k` on agree element by element there. */
  lemma TailsAgree(fields: seq<seq<string>>, i: nat, orig: seq<seq<string>>, k: nat)
    requires i <= |fields| && k <= |orig| && fields[i..] == orig[k..]
    ensures |fields| - i == |orig| - k
    ensures i < |fields| ==> fields[i] == orig[k] && fields[i + 1..] == orig[k + 1..]
  {
    if i < |fields| {
      assert fields[i] == fields[i..][0] && orig[k] == orig[k..][0];
      assert fields[i + 1..] == fields[i..][1..] && orig[k + 1..] == orig[k..][1..];
    }
  }

  /** Once a malformed field has been passed over, one stays behind the iterator. */
  lemma RemoveDirty(fields: seq<seq<string>>, i: nat, orig: seq<seq<string>>, k: nat)
    requires i < |fields| && k < |orig| && fields[i..] == orig[k..] && Bad(fields[i])
    requires |fields| - i == |orig| - k
    requires exists j :: 0 <= j < i && Bad(fields[j])
    requires !Clean(orig, 0)
    ensures LoopInv(RemoveFirst(fields, fields[i]), i + 1, orig, k + 2, false)
  {
    var f := fields[i];
    FirstIndexAtMost(fields, f, i);
    var j := FirstIndex(fields, f);
    var after := RemoveFirst(fields, f);
    RemovedAt(fields, j);
    var b :| 0 <= b < i && Bad(fields[b]);
    assert Bad(after[i - 1]) || Bad(after[b]);
    if i + 1 <= |after| {
      RemovedTail(fields, j, i + 1);
      assert fields[i + 2..] == fields[i..][2..];
    }
  }

  /** Past the removed element the list is the old one, one further on. */
  lemma RemovedTail<T>(xs: seq<T>, j: nat, t: nat)
    requires j <= t < |xs|
    ensures (xs[..j] + xs[j + 1..])[t..] == xs[t + 1..]
  {
    assert (xs[..j] + xs[j + 1..])[t..] == xs[j + 1..][t - j..];
  }

  /** `list.index` finds the first occurrence at or before any occurrence. */
  lemma {:induction false} FirstIndexAtMost<T>(xs: seq<T>, x: T, i: nat)
    requires i < |xs| && xs[i] == x
    ensures FirstIndex(xs, x) <= i
  {
    if xs[0] != x {
      FirstIndexAtMost(xs[1..], x, i - 1);
    }
  }

  /** An occurrence with none before it is what `list.index` finds. */
  lemma {:induction false} FirstIndexAt<T>(xs: seq<T>, x: T, i: nat)
    requires i < |xs| && xs[i] == x && x !in xs[..i]
    ensures FirstIndex(xs, x) == i
  {
    if i > 0 {
      assert xs[0] == xs[..i][0];
      assert xs[1..][..i - 1] == xs[..i][1..];
      FirstIndexAt(xs[1..], x, i - 1);
    }
  }

  /** Removing the element at `j` keeps those before it and shifts those after it down by one. */
  lemma RemovedAt<T>(xs: seq<T>, j: nat)
    requires j < |xs|
    ensures var r := xs[..j] + xs[j + 1..];
      && |r| == |xs| - 1
      && (forall t :: 0 <= t < j ==> r[t] == xs[t])
      && (forall t :: j <= t < |r| ==> r[t] == xs[t + 1])
  {
  }

  /** When the loop ends, `dict()` sees what `FieldsOutcome` describes. */
  lemma FinalList(fields: seq<seq<string>>, i: nat, orig: seq<seq<string>>, k: nat, clean: bool)
    requires LoopInv(fields, i, orig, k, clean) && i >= |fields|
    ensures DictOf(fields) == FieldsOutcome(orig)
  {
    assert k >= |orig|;
    assert fields[..Min(i, |fields|)] == fields;
    assert orig[..Min(k, |orig|)] == orig;
  }

  // ---------------------------------------------------------------- properties

  /** Fields `j` and `j + 1` are both malformed. */
  predicate AdjacentBad(fs: seq<seq<string>>, j: nat) {
    j + 1 < |fs| && Bad(fs[j]) && Bad(fs[j + 1])
  }

  /** From position `k` on, the walk removes every malformed field exactly when no two malformed fields are neighbours. */
  lemma {:induction false} CleanIffNoAdjacent(fs: seq<seq<string>>, k: nat)
    ensures Clean(fs, k) <==> forall j :: k <= j ==> !AdjacentBad(fs, j)
    decreases |fs| - k
  {
    if k >= |fs| {
    } else if !Bad(fs[k]) {
      CleanIffNoAdjacent(fs, k + 1);
    } else if k + 1 < |fs| && Bad(fs[k + 1]) {
      assert AdjacentBad(fs, k);
    } else {
      CleanIffNoAdjacent(fs, k + 2);
      assert !AdjacentBad(fs, k) && !AdjacentBad(fs, k + 1);
    }
  }

  /**
   * `params_string_to_dict` raises exactly when two neighbouring segments
   * have no space in them; otherwise a segment without a space is dropped
   * and the others become the dictionary.
   */
  lemma FieldsOutcomeShape(fs: seq<seq<string>>)
    ensures FieldsOutcome(fs).None? <==> exists j :: AdjacentBad(fs, j)
    ensures FieldsOutcome(fs).Some? ==> FieldsOutcome(fs).value == BuildMap(Good(fs))
  {
    CleanIffNoAdjacent(fs, 0);
  }

  /** A name is a key of `dict(fields)` exactly when some field carries it. */
  lemma {:induction false} BuildMapKeys(fs: seq<seq<string>>, name: string)
    requires WellFormed(fs)
    ensures name in BuildMap(fs) <==> exists j :: 0 <= j < |fs| && fs[j][0] == name
    decreases |fs|
  {
    if fs != [] {
      var init := fs[..|fs| - 1];
      BuildMapKeys(init, name);
      assert forall j :: 0 <= j < |init| ==> init[j] == fs[j];
    }
  }

  /** A name maps to the value of the last field that carries it. */
  lemma {:induction false} BuildMapLast(fs: seq<seq<string>>, j: nat)
    requires WellFormed(fs) && j < |fs|
    requires forall t :: j < t < |fs| ==> fs[t][0] != fs[j][0]
    ensures fs[j][0] in BuildMap(fs) && BuildMap(fs)[fs[j][0]] == fs[j][1]
    decreases |fs|
  {
    if j < |fs| - 1 {
      var init := fs[..|fs| - 1];
      assert init[j] == fs[j];
      assert forall t :: j < t < |init| ==> init[t] == fs[t];
      BuildMapLast(init, j);
    }
  }

  /** A segment `name value`, padded or not, becomes the field `[name, value]`. */
  lemma FieldOf(name: string, value: string)
    requires name != [] && NoSpace(name) && value != [] && !IsSpace(value[|value| - 1])
    ensures Field(name + " " + value) == [name, value]
  {
    var seg := name + " " + value;
    assert seg[0] == name[0] && seg[|seg| - 1] == value[|value| - 1];
    StripTrimmed(seg);
    assert ' ' !in name by {
      assert forall t :: 0 <= t < |name| ==> name[t] != ' ';
    }
    SplitOnceAt(name, ' ', value);
  }

  /** Lower-casing keeps whitespace where it is. */
  lemma LowerNoSpace(s: string)
    requires NoSpace(s)
    ensures NoSpace(Lower(s)) && ' ' !in Lower(s)
  {
    assert forall t :: 0 <= t < |s| ==> Lower(s)[t] != ' ';
  }

  /** The text after the first space, when it has no whitespace at either end, is what `without_first_word` gives. */
  lemma WithoutFirstWordOf(first: string, tail: string)
    requires ' ' !in first && (tail != [] ==> !IsSpace(tail[0]) && !IsSpace(tail[|tail| - 1]))
    ensures WithoutFirstWord(first + " " + tail) == Some(tail)
  {
    SplitOnceAt(first, ' ', tail);
    StripTrimmed(tail);
  }

  /** Lower-casing two words joined by a space lower-cases each. */
  lemma LowerJoin(a: string, b: string)
    ensures Lower(a + " " + b) == Lower(a) + " " + Lower(b)
  {
  }

  /**
   * `@bot keyword rest`: the keyword is the second word lower-cased, and the
   * parameter text is everything after the space that ends it, lower-cased.
   */
  lemma SplitCommandOf(mention: string, keyword: string, rest: string)
    requires ' ' !in mention && keyword != [] && NoSpace(keyword)
    requires rest != [] && !IsSpace(rest[|rest| - 1])
    ensures SplitCommand(mention + " " + keyword + " " + rest) == Some((Lower(keyword), Some(Lower(rest))))
  {
    var tail := keyword + " " + rest;
    assert mention + " " + keyword + " " + rest == mention + " " + tail;
    assert tail[0] == keyword[0] && tail[|tail| - 1] == rest[|rest| - 1];
    WithoutFirstWordOf(mention, tail);
    LowerJoin(keyword, rest);
    LowerNoSpace(keyword);
    SplitOnceAt(Lower(keyword), ' ', Lower(rest));
  }

  /** `@bot keyword` alone: the keyword lower-cased, and no parameters. */
  lemma KeywordOnly(mention: string, keyword: string)
    requires ' ' !in mention && keyword != [] && NoSpace(keyword)
    ensures KeywordAndParams(mention + " " + keyword) == Parsed(Lower(keyword), NoParams)
    ensures LegacyKeywordAndParams(mention + " " + keyword) == Parsed(Lower(keyword), NoParams)
  {
    SplitOnceAt(mention, ' ', keyword);
    StripTrimmed(keyword);
    LowerNoSpace(keyword);
  }

  /**
   * A lone wrapped e-mail address as the parameter: the current bot un-wraps
   * it before the `|` test and hands on the address as free text; the earlier
   * bot takes the `|` inside the link for a field separator and `dict()` raises.
   */
  lemma LoneEmail(mention: string, keyword: string, target: string, address: string)
    requires ' ' !in mention && keyword != [] && NoSpace(keyword)
    requires Hyperlinks.LinkText(target, address) && '|' !in target
    requires IsLower(target) && IsLower(address)
    ensures var text := mention + " " + keyword + " " + Hyperlinks.Token(Hyperlinks.MAILTO, target, address);
      && KeywordAndParams(text) == Parsed(Lower(keyword), FreeText(address))
      && LegacyKeywordAndParams(text) == DictFailed
  {
    Hyperlinks.MailtoPlain();
    Hyperlinks.PurgeMailOnly(target, address);
    LoneLink(mention, keyword, Hyperlinks.MAILTO, target, address);
  }

  /** The same for any plain tag whose link `purge_hyperlinks` un-wraps to its display text. */
  lemma LoneLink(mention: string, keyword: string, tag: string, target: string, address: string)
    requires ' ' !in mention && keyword != [] && NoSpace(keyword)
    requires tag != [] && NoSpace(tag) && '|' !in tag && IsLower(tag)
    requires Hyperlinks.LinkText(target, address) && '|' !in target
    requires IsLower(target) && IsLower(address)
    requires Hyperlinks.PurgeHyperlinks(Hyperlinks.Token(tag, target, address)) == address
    ensures var text := mention + " " + keyword + " " + Hyperlinks.Token(tag, target, address);
      && KeywordAndParams(text) == Parsed(Lower(keyword), FreeText(address))
      && LegacyKeywordAndParams(text) == DictFailed
  {
    var link := Hyperlinks.Token(tag, target, address);
    LowerLink(tag, target, address);
    SplitCommandOf(mention, keyword, link);
    assert '|' !in address;
    NoSpaceAppend(tag, target);
    NoSpaceAppend(address, ">");
    TwoBareSegments(tag + target, address + ">");
  }

  /** A link with lower-case parts is its own `lower()`, and its one `|` sits after the target. */
  lemma LowerLink(tag: string, target: string, address: string)
    requires IsLower(tag) && IsLower(target) && IsLower(address)
    ensures var link := Hyperlinks.Token(tag, target, address);
      && Lower(link) == link && link == tag + target + "|" + (address + ">")
      && link != [] && link[|link| - 1] == '>'
  {
    var link := Hyperlinks.Token(tag, target, address);
    assert IsLower(link);
    LowerOfLower(link);
  }

  /** Two segments without a space around one `|` make `dict()` raise. */
  lemma TwoBareSegments(head: string, last: string)
    requires head != [] && NoSpace(head) && '|' !in head
    requires last != [] && NoSpace(last) && '|' !in last
    ensures ParamsOf(head + "|" + last) == None
  {
    SplitPair(head, '|', last);
    assert head + "|" + last == head + ['|'] + last;
    StripTrimmed(head);
    StripTrimmed(last);
    assert ' ' !in head && ' ' !in last by {
      assert forall t :: 0 <= t < |head| ==> head[t] != ' ';
      assert forall t :: 0 <= t < |last| ==> last[t] != ' ';
    }
    assert (head + "|" + last)[|head|] == '|';
    assert AdjacentBad(FieldsOf([head, last]), 0);
    FieldsOutcomeShape(FieldsOf([head, last]));
  }

  /**
   * `@bot keyword a|b` with two bare words: both bots raise from `dict()`,
   * since the second malformed segment is skipped by the removal loop.
   */
  lemma BareSegmentsFail(mention: string, keyword: string, head: string, last: string)
    requires ' ' !in mention && keyword != [] && NoSpace(keyword)
    requires head != [] && NoSpace(head) && '|' !in head && '<' !in head && IsLower(head)
    requires last != [] && NoSpace(last) && '|' !in last && '<' !in last && IsLower(last)
    ensures KeywordAndParams(mention + " " + keyword + " " + head + "|" + last) == DictFailed
    ensures LegacyKeywordAndParams(mention + " " + keyword + " " + head + "|" + last) == DictFailed
  {
    var rest := head + "|" + last;
    assert mention + " " + keyword + " " + head + "|" + last == mention + " " + keyword + " " + rest;
    BareRest(head, last);
    SplitCommandOf(mention, keyword, rest);
    Hyperlinks.PurgeWithoutOpen(rest);
    TwoBareSegments(head, last);
  }

  /** Two lower-case bare words around `|`: their own `lower()`, with no `<` and no trailing space. */
  lemma BareRest(head: string, last: string)
    requires head != [] && NoSpace(head) && '<' !in head && IsLower(head)
    requires last != [] && NoSpace(last) && '<' !in last && IsLower(last)
    ensures var rest := head + "|" + last;
      && rest != [] && !IsSpace(rest[|rest| - 1]) && Lower(rest) == rest && '<' !in rest
  {
    var rest := head + "|" + last;
    assert rest[|rest| - 1] == last[|last| - 1];
    assert IsLower(rest);
    LowerOfLower(rest);
    forall t | 0 <= t < |rest|
      ensures rest[t] != '<'
    {
      if t < |head| {
        assert rest[t] == head[t];
      } else if t > |head| {
        assert rest[t] == last[t - |head| - 1];
      }
    }
  }
}
