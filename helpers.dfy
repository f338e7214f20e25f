/**
 * The helpers the handlers share (`helpers.py`, repeated at the end of
 * `commands.py`): currency text, positional words, timestamps, dates, the
 * fenced summaries and the warnings that quote a usage example.
 */
module Helpers {
  import opened Wrappers
  import opened Text
  import opened Model
  import Directory = CommandsDirectory

  const OutOfRange: string := "list index out of range"

  /** The exception `[1]` raises on a list that is too short. */
  function IndexFailure(): Exception {
    Exception(IndexError, OutOfRange)
  }

  // ---------------------------------------------------------------- currency

  /**
   * `format_currency` on the text `str(amount)`: a `0` is appended when one
   * character follows the first `.`; without a `.` indexing `[1]` raises.
   */
  function FormatCurrency(amount: string): (r: Result<string, Exception>)
    ensures r.Failure? <==> '.' !in amount
    ensures r.Failure? ==> r.error == IndexFailure()
    ensures r.Success? ==> r.value == amount || r.value == amount + "0"
  {
    var pieces := Split(amount, '.');
    SplitHasTwoPieces(amount, '.');
    if |pieces| < 2 then Failure(IndexFailure())
    else Success(if |pieces[1]| == 1 then amount + "0" else amount)
  }

  /** The text of a float has one `.`: one digit after it gets a `0`, and anything else is kept. */
  lemma FormatCurrencyOf(whole: string, fraction: string)
    requires '.' !in whole && '.' !in fraction
    ensures FormatCurrency(whole + "." + fraction)
         == Success(if |fraction| == 1 then whole + "." + fraction + "0" else whole + "." + fraction)
  {
    SplitPair(whole, '.', fraction);
    assert whole + "." + fraction == whole + ['.'] + fraction;
  }

  // ---------------------------------------------------------------- words

  /** `first_word`: the text before the first space; `None` when the parameters are not text. */
  function FirstWord(p: Params): (r: Option<string>)
    ensures r.Some? <==> p.FreeText?
    ensures r.Some? ==> IsPrefix(r.value, p.text) && ' ' !in r.value
    ensures r.Some? && |r.value| < |p.text| ==> p.text[|r.value|] == ' '
  {
    match p
    case FreeText(t) =>
      var w := SplitOnce(t, ' ')[0];
      assert ' ' in t ==> t[..|w|] == w && t[|w|] == ' ' by {
        if ' ' in t {
          assert t == w + [' '] + SplitOnce(t, ' ')[1];
        }
      }
      Some(w)
    case _ => None
  }

  /**
   * `word_after`: the whitespace-separated token right after the first
   * occurrence of `word`; `None` when the parameters are not text, `word` is
   * `None` or absent, or it is the last token.
   */
  function WordAfter(p: Params, word: Option<string>): (r: Option<string>)
    ensures r.Some? <==> p.FreeText? && word.Some? && FollowedIn(SplitWs(p.text), word.value)
    ensures r.Some? ==> exists i :: 0 <= i < |SplitWs(p.text)| - 1 && FirstAt(SplitWs(p.text), word.value, i)
                                    && r.value == SplitWs(p.text)[i + 1]
  {
    if !p.FreeText? || word.None? then None
    else
      var words := SplitWs(p.text);
      match IndexOfWord(words, word.value)
      case None => None
      case Some(i) =>
        assert FirstAt(words, word.value, i);
        FirstAtUnique(words, word.value, i);
        if i + 1 < |words| then Some(words[i + 1]) else None
  }

  /** `ws[i]` is the first occurrence of `w`. */
  predicate FirstAt(ws: seq<string>, w: string, i: nat) {
    i < |ws| && ws[i] == w && w !in ws[..i]
  }

  /** `w` occurs and its first occurrence is not the last token. */
  predicate FollowedIn(ws: seq<string>, w: string) {
    exists i :: 0 <= i < |ws| - 1 && FirstAt(ws, w, i)
  }

  /** There is only one first occurrence. */
  lemma FirstAtUnique(ws: seq<string>, w: string, i: nat)
    requires FirstAt(ws, w, i)
    ensures forall j: nat :: FirstAt(ws, w, j) ==> j == i
  {
    NotInPrefix(ws, w, i);
    forall j: nat | FirstAt(ws, w, j)
      ensures j == i
    {
      NotInPrefix(ws, w, j);
    }
  }

  lemma NotInPrefix(ws: seq<string>, w: string, i: nat)
    requires i <= |ws| && w !in ws[..i]
    ensures forall t :: 0 <= t < i ==> ws[t] != w
  {
    forall t | 0 <= t < i
      ensures ws[t] != w
    {
      assert ws[t] == ws[..i][t];
    }
  }

  /** In a text of single-spaced words, `word_after` gives the word after the first occurrence. */
  lemma WordAfterOf(ws: seq<string>, i: nat)
    requires forall k :: 0 <= k < |ws| ==> ws[k] != [] && NoSpace(ws[k])
    requires i + 1 < |ws| && ws[i] !in ws[..i]
    ensures WordAfter(FreeText(JoinSep(ws, " ")), Some(ws[i])) == Some(ws[i + 1])
  {
    SplitWsJoin(ws);
    WordAfterAt(FreeText(JoinSep(ws, " ")), ws[i], i);
  }

  /** The word after the first occurrence, in terms of the tokens. */
  lemma WordAfterAt(p: Params, w: string, i: nat)
    requires p.FreeText? && i + 1 < |SplitWs(p.text)| && FirstAt(SplitWs(p.text), w, i)
    ensures WordAfter(p, Some(w)) == Some(SplitWs(p.text)[i + 1])
  {
    FirstAtUnique(SplitWs(p.text), w, i);
  }

  /** A word that is absent, or only last, has no word after it. */
  lemma WordAfterNone(ws: seq<string>, w: string)
    requires forall k :: 0 <= k < |ws| ==> ws[k] != [] && NoSpace(ws[k])
    requires ws != [] ==> w !in ws[..|ws| - 1]
    ensures WordAfter(FreeText(JoinSep(ws, " ")), Some(w)).None?
  {
    SplitWsJoin(ws);
    NotFollowed(ws, w);
  }

  lemma NotFollowed(ws: seq<string>, w: string)
    requires ws != [] ==> w !in ws[..|ws| - 1]
    ensures !FollowedIn(ws, w)
  {
    forall i | 0 <= i < |ws| - 1
      ensures !FirstAt(ws, w, i)
    {
      assert ws[i] == ws[..|ws| - 1][i];
    }
  }

  /** The first word of words joined by single spaces is the first of them. */
  lemma FirstWordOf(ws: seq<string>)
    requires |ws| >= 1 && forall k :: 0 <= k < |ws| ==> ws[k] != [] && NoSpace(ws[k])
    ensures FirstWord(FreeText(JoinSep(ws, " "))) == Some(ws[0])
  {
    assert forall t :: 0 <= t < |ws[0]| ==> ws[0][t] != ' ';
    if |ws| > 1 {
      SplitOnceAt(ws[0], ' ', JoinSep(ws[1..], " "));
      assert JoinSep(ws, " ") == ws[0] + [' '] + JoinSep(ws[1..], " ");
    }
  }

  // ---------------------------------------------------------------- timestamps

  /** `int(str(timestamp)[:-3])`: milliseconds to seconds; fewer than four digits leave `int('')`, which raises. */
  function Seconds(timestamp: nat): (r: Option<nat>)
  {
    var s := NatToString(timestamp);
    if |s| <= 3 then None else Some(DigitsValue(s[..|s| - 3]))
  }

  /** Dropping the last three digits is division by 1000, and short timestamps raise. */
  lemma SecondsOf(timestamp: nat)
    ensures timestamp >= 1000 ==> Seconds(timestamp) == Some(timestamp / 1000)
    ensures timestamp < 1000 ==> Seconds(timestamp).None?
  {
    if timestamp >= 1000 {
      DropThreeDigits(timestamp);
      DigitsValueOfNatToString(timestamp / 1000);
    } else {
      ShortNumber(timestamp);
    }
  }

  /**
   * `timestamp_to_string`; the calendar formatting of the seconds
   * (`fromtimestamp` and `strftime('%Y-%m-%d')`) is the parameter `calendar`.
   */
  function TimestampToString(timestamp: nat, calendar: nat -> string): (r: Result<string, Exception>)
    ensures r.Failure? <==> timestamp < 1000
    ensures r.Success? ==> r.value == calendar(timestamp / 1000)
  {
    SecondsOf(timestamp);
    match Seconds(timestamp)
    case None => Failure(Exception(ValueError, "invalid literal for int() with base 10: ''"))
    case Some(seconds) => Success(calendar(seconds))
  }

  // ---------------------------------------------------------------- dates

  /** `string_date_to_ints`: three integers between `/`, with no range check; anything else gives `(None, None, None)`. */
  function StringDateToInts(date: string): (r: Option<(int, int, int)>)
    ensures r.Some? <==> |Split(date, '/')| == 3 && ParseInt(Split(date, '/')[0]).Some?
                         && ParseInt(Split(date, '/')[1]).Some? && ParseInt(Split(date, '/')[2]).Some?
    ensures r.Some? ==> (Some(r.value.0) == ParseInt(Split(date, '/')[0])
                      && Some(r.value.1) == ParseInt(Split(date, '/')[1])
                      && Some(r.value.2) == ParseInt(Split(date, '/')[2]))
  {
    var pieces := Split(date, '/');
    if |pieces| == 3 && ParseInt(pieces[0]).Some? && ParseInt(pieces[1]).Some? && ParseInt(pieces[2]).Some? then
      Some((ParseInt(pieces[0]).value, ParseInt(pieces[1]).value, ParseInt(pieces[2]).value))
    else None
  }

  /** Any three numbers written as `m/d/y` come back as they are, whatever their range. */
  lemma StringDateRoundTrip(month: nat, day: nat, year: nat)
    ensures StringDateToInts(NatToString(month) + "/" + NatToString(day) + "/" + NatToString(year))
         == Some((month, day, year))
  {
    NoSlashInNumber(month);
    NoSlashInNumber(day);
    NoSlashInNumber(year);
    ThreePieces(NatToString(month), NatToString(day), NatToString(year));
    ParseIntOfNatToString(month);
    ParseIntOfNatToString(day);
    ParseIntOfNatToString(year);
  }

  lemma NoSlashInNumber(n: nat)
    ensures '/' !in NatToString(n)
  {
    var s := NatToString(n);
    assert forall t :: 0 <= t < |s| ==> IsDigit(s[t]);
  }

  /** Three pieces without `/` joined by `/` split back into the three. */
  lemma ThreePieces(a: string, b: string, c: string)
    requires '/' !in a && '/' !in b && '/' !in c
    ensures Split(a + "/" + b + "/" + c, '/') == [a, b, c]
  {
    SplitPair(b, '/', c);
    SplitCons(a, '/', b + ['/'] + c);
    SlashJoin(a, b, c);
  }

  lemma SlashJoin(a: string, b: string, c: string)
    ensures a + "/" + b + "/" + c == a + ['/'] + (b + ['/'] + c)
  {
    assert "/" == ['/'];
  }

  /** A date without exactly two `/` gives `(None, None, None)`. */
  lemma StringDateWrongCount(date: string)
    requires |Split(date, '/')| != 3
    ensures StringDateToInts(date).None?
  {
  }

  // ---------------------------------------------------------------- summaries

  /** Lines each ended by `\n`. */
  function Lines(ls: seq<string>): string {
    if ls == [] then "" else ls[0] + "\n" + Lines(ls[1..])
  }

  /** A Markdown code block: the lines between two three-backtick fences. */
  function Fenced(ls: seq<string>): (r: string)
    ensures IsPrefix("```", r) && IsSuffix("```", r)
  {
    "```" + Lines(ls) + "```"
  }

  /** `\n`-terminated lines are the pieces of `\n`-joining them with one empty piece after. */
  lemma {:induction false} LinesJoin(ls: seq<string>)
    ensures Lines(ls) == JoinSep(ls + [""], "\n")
    decreases |ls|
  {
    if ls != [] {
      LinesJoin(ls[1..]);
      assert (ls + [""])[1..] == ls[1..] + [""];
    }
  }

  /** Between the fences, splitting at `\n` gives the lines back, in order, and one empty piece after the last. */
  lemma FencedLines(ls: seq<string>)
    requires forall k :: 0 <= k < |ls| ==> '\n' !in ls[k]
    ensures var r := Fenced(ls);
      |r| >= 6 && Split(r[3..|r| - 3], '\n') == ls + [""]
  {
    var r := Fenced(ls);
    LinesJoin(ls);
    assert r[3..|r| - 3] == Lines(ls);
    SplitJoin(ls + [""], '\n');
  }

  /** `user_summary`; `legal_names[0]` raises on a user without a legal name. */
  function UserSummary(u: User): (r: Result<string, Exception>)
    ensures r.Failure? <==> u.legalNames == []
    ensures r.Success? ==> r.value == Fenced(["user id: " + u.id, "name: " + u.legalNames[0], "permissions: " + u.permission])
  {
    if u.legalNames == [] then Failure(IndexFailure())
    else Success(Fenced(["user id: " + u.id, "name: " + u.legalNames[0], "permissions: " + u.permission]))
  }

  /** `node_summary`. */
  function NodeSummary(n: Node): (r: string)
    ensures IsPrefix("```", r) && IsSuffix("```", r)
    ensures '\n' !in n.id + n.nickname + n.accountClass + n.permission ==>
              |r| >= 6 && Split(r[3..|r| - 3], '\n')
                          == ["node id: " + n.id, "nickname: " + n.nickname, "type: " + n.accountClass,
                              "permissions: " + n.permission, ""]
  {
    var ls := ["node id: " + n.id, "nickname: " + n.nickname, "type: " + n.accountClass, "permissions: " + n.permission];
    NodeSummaryLines(n, ls);
    Fenced(ls)
  }

  /** The four labelled lines of a node summary come back from its block when no field holds a line break. */
  lemma NodeSummaryLines(n: Node, ls: seq<string>)
    requires ls == ["node id: " + n.id, "nickname: " + n.nickname, "type: " + n.accountClass, "permissions: " + n.permission]
    ensures '\n' !in n.id + n.nickname + n.accountClass + n.permission ==>
              var r := Fenced(ls); |r| >= 6 && Split(r[3..|r| - 3], '\n') == ls + [""]
  {
    var all := n.id + n.nickname + n.accountClass + n.permission;
    if '\n' !in all {
      assert forall c :: c in n.id ==> c in all;
      assert forall c :: c in n.nickname ==> c in all;
      assert forall c :: c in n.accountClass ==> c in all;
      assert forall c :: c in n.permission ==> c in all;
      FencedLines(ls);
    }
  }

  /** The label of the creation date: `helpers.py` writes `created_on`, the copy in `commands.py` `created on`. */
  const CreatedOnHelpers: string := "created_on: "
  const CreatedOnCommands: string := "created on: "

  /**
   * `transaction_summary`: the lines are built left to right, so the first
   * thing that raises decides the exception: the amount, the recipient's
   * name, then each timestamp.
   */
  function TransactionSummary(t: Transaction, calendar: nat -> string, createdLabel: string): (r: Result<string, Exception>)
    ensures r.Success? <==> '.' in t.amount && t.toNames != [] && t.createdOn >= 1000 && t.processOn >= 1000
    ensures r.Failure? && '.' !in t.amount ==> r.error == IndexFailure()
    ensures r.Success? ==> r.value == Fenced([
              "trans id: " + t.id, "amount: " + FormatCurrency(t.amount).value, "from node id: " + t.nodeId,
              "to node id: " + t.toId, "recipient name: " + t.toNames[0], "status: " + t.statusNote,
              createdLabel + calendar(t.createdOn / 1000), "process on: " + calendar(t.processOn / 1000)])
  {
    match FormatCurrency(t.amount)
    case Failure(e) => Failure(e)
    case Success(amount) =>
      if t.toNames == [] then Failure(IndexFailure())
      else match TimestampToString(t.createdOn, calendar)
      case Failure(e) => Failure(e)
      case Success(created) =>
        match TimestampToString(t.processOn, calendar)
        case Failure(e) => Failure(e)
        case Success(process) =>
          Success(Fenced([
            "trans id: " + t.id, "amount: " + amount, "from node id: " + t.nodeId,
            "to node id: " + t.toId, "recipient name: " + t.toNames[0], "status: " + t.statusNote,
            createdLabel + created, "process on: " + process]))
  }

  /** Python's `'{0}'.format(x)` for an optional string: `None` shows as `None`. */
  function Show(x: Option<string>): string {
    match x
    case None => "None"
    case Some(s) => s
  }

  /** `recurring_transaction_summary`; an amount without `.` raises in `format_currency`. */
  function RecurringSummary(rt: RecurringTransaction): (r: Result<string, Exception>)
    ensures r.Success? <==> '.' in rt.amount
    ensures r.Failure? ==> r.error == IndexFailure()
    ensures r.Success? ==> r.value == Fenced([
              "amount: " + FormatCurrency(rt.amount).value, "from_node_id: " + rt.fromNodeId,
              "to_node_id: " + rt.toNodeId, "periodicity: every " + Show(rt.periodicity) + " days"])
  {
    match FormatCurrency(rt.amount)
    case Failure(e) => Failure(e)
    case Success(amount) =>
      Success(Fenced([
        "amount: " + amount, "from_node_id: " + rt.fromNodeId, "to_node_id: " + rt.toNodeId,
        "periodicity: every " + Show(rt.periodicity) + " days"]))
  }

  // ---------------------------------------------------------------- warnings

  const RegisterFirst: string := "*You need to register first!*\n>"
  const AddressFirst: string := "*You need to provide your address first!*\n>"
  const TryAgain: string := "*Please try again using the correct format:*\n>"

  /** A header line, then `>` and the usage example of one command. */
  function Warning(header: string, keyword: string): (r: string)
    requires keyword in Directory.KEYS
    ensures IsPrefix(header, r)
    ensures r[|header|..] == Directory.Example(keyword)
    ensures IsPrefix("@synapse " + keyword, r[|header|..])
  {
    var r := header + Directory.Example(keyword);
    assert r[|header|..] == Directory.Example(keyword);
    assert r[..|header|] == header;
    r
  }

  /** `registration_warning`: the `register` example. */
  function RegistrationWarning(): (r: string)
    ensures IsPrefix(RegisterFirst, r) && r[|RegisterFirst|..] == Directory.Example("register")
  {
    Warning(RegisterFirst, "register")
  }

  /** `base_doc_warning`: the `add_address` example. */
  function BaseDocWarning(): (r: string)
    ensures IsPrefix(AddressFirst, r) && r[|AddressFirst|..] == Directory.Example("add_address")
  {
    Warning(AddressFirst, "add_address")
  }

  /** `invalid_params_warning(command)`: the example of that command. */
  function InvalidParamsWarning(command: string): (r: string)
    requires command in Directory.KEYS
    ensures IsPrefix(TryAgain, r) && r[|TryAgain|..] == Directory.Example(command)
  {
    Warning(TryAgain, command)
  }
}
