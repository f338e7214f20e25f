/**
 * The first bot, `bot.py` at the top of the repository: module-level
 * `parse_slack_output`, which returns the command text of the first event
 * that mentions the bot, and `handle_command`, which routes that text through
 * a three-entry table and posts one reply. The handlers are a parameter: the
 * names the script imports are not defined by `commands.py`, which holds a
 * class instead. What is shared with the class version in `synapse_bot.py`
 * (reading the mention, translating errors) is defined here once.
 */
module RootBot {
  import opened Wrappers
  import opened Text
  import opened Model
  import Dispatcher

  /** The handler functions the two first bots point at. */
  datatype RootFn = ListResource | IAm | Send | WhoAmI

  /** Runs a handler on the whole command text. */
  type Handlers = (RootFn, string) -> Outcome

  /** The keys of `COMMANDS` of `bot.py`, in the order the table lists them. */
  const KEYS: seq<string> := ["list", "send", "whoami"]

  /** `COMMANDS[keyword]` of `bot.py`, if the keyword is a key. */
  function HandlerOf(keyword: string): (r: Option<RootFn>)
    ensures r.Some? <==> keyword in KEYS
  {
    if keyword == "list" then Some(ListResource)
    else if keyword == "send" then Some(Send)
    else if keyword == "whoami" then Some(WhoAmI)
    else None
  }

  const Default: string := "Not sure what you mean. Try the *help* command?"
  const HelpHeader: string := "Available commands:\n"

  /** The `help` reply: a header line, then the keys one per line. */
  function HelpText(keys: seq<string>): string {
    HelpHeader + JoinSep(keys, "\n")
  }

  /** The keys come back from the `help` reply, in order, when none holds a line break. */
  lemma HelpTextLists(keys: seq<string>)
    requires |keys| >= 1 && forall k :: 0 <= k < |keys| ==> '\n' !in keys[k]
    ensures IsPrefix(HelpHeader, HelpText(keys))
    ensures Split(HelpText(keys)[|HelpHeader|..], '\n') == keys
  {
    var r := HelpText(keys);
    assert r[..|HelpHeader|] == HelpHeader && r[|HelpHeader|..] == JoinSep(keys, "\n");
    SplitJoin(keys, '\n');
  }

  /** Every key of `bot.py`'s table is free of line breaks, so `help` lists exactly the three. */
  lemma HelpListsKeys()
    ensures Split(HelpText(KEYS)[|HelpHeader|..], '\n') == ["list", "send", "whoami"]
  {
    HelpTextLists(KEYS);
  }

  /**
   * The reply for an exception: a `SynapsePayError` shows its message, any
   * other exception only its class (`sys.exc_info()[0]`).
   */
  function Translate(o: Outcome): (r: string)
    ensures o.Ok? ==> r == o.text
    ensures o.ProviderError? ==> IsPrefix(Dispatcher.HttpError, r) && r[|Dispatcher.HttpError|..] == o.message
    ensures o.OtherError? ==> IsPrefix(Dispatcher.OtherErrorHeader, r)
                              && r[|Dispatcher.OtherErrorHeader|..] == TypeText(o.exception.kind)
  {
    match o
    case Ok(text) => text
    case ProviderError(message) =>
      var r := Dispatcher.HttpError + message;
      assert r[..|Dispatcher.HttpError|] == Dispatcher.HttpError;
      r
    case OtherError(e) =>
      var r := Dispatcher.OtherErrorHeader + TypeText(e.kind);
      assert r[..|Dispatcher.OtherErrorHeader|] == Dispatcher.OtherErrorHeader;
      r
  }

  /** An exception other than the provider's is reported by class alone: two with the same class read the same. */
  lemma TranslateHidesDetail(k: ErrorKind, d1: string, d2: string)
    ensures Translate(OtherError(Exception(k, d1))) == Translate(OtherError(Exception(k, d2)))
  {
  }

  /** The keyword of `bot.py`: the text before the first space, as typed. */
  function Keyword(command: string): (r: string)
    ensures ' ' !in r && IsPrefix(r, command)
  {
    var w := SplitOnce(command, ' ')[0];
    assert ' ' in command ==> command == w + [' '] + SplitOnce(command, ' ')[1];
    w
  }

  /**
   * `handle_command` of `bot.py`: the text it posts. `help` gets the help
   * text, a key gets its handler's translated reply on the whole command,
   * and anything else the default text, whatever the handlers do.
   */
  function Reply(run: Handlers, command: string): (r: string)
    ensures Keyword(command) == "help" ==> r == HelpText(KEYS)
    ensures Keyword(command) in KEYS ==> r == Translate(run(HandlerOf(Keyword(command)).value, command))
    ensures Keyword(command) != "help" && Keyword(command) !in KEYS ==> r == Default
  {
    var keyword := Keyword(command);
    if keyword == "help" then HelpText(KEYS)
    else match HandlerOf(keyword)
      case Some(f) => Translate(run(f, command))
      case None => Default
  }

  /** `bot.py` does not lower-case: `HELP` is not `help`, and gets the default text. */
  lemma UpperCaseUnknown(run: Handlers)
    ensures Reply(run, "HELP") == Default
  {
    assert Keyword("HELP") == "HELP" by {
      assert ' ' !in "HELP";
    }
  }

  // ---------------------------------------------------------------- mentions

  /** Where `text.split(at_bot)[1]` lies in `text`: from just after the first mention to the next one, or to the end. */
  function MentionBounds(text: string, atBot: string): (r: (nat, nat))
    requires atBot != [] && Contains(text, atBot)
    ensures |atBot| <= r.0 <= r.1 <= |text|
  {
    var k := FindFrom(text, atBot, 0).value;
    var start := k + |atBot|;
    match FindFrom(text, atBot, start)
    case None => (start, |text|)
    case Some(j) => (start, j)
  }

  /** The range starts right after a mention, and no mention lies wholly inside it. */
  lemma MentionBoundsClear(text: string, atBot: string)
    requires atBot != [] && Contains(text, atBot)
    ensures var r := MentionBounds(text, atBot);
            OccursAt(text, atBot, r.0 - |atBot|)
            && forall k :: r.0 <= k && k + |atBot| <= r.1 ==> !OccursAt(text, atBot, k)
  {
  }

  /**
   * `text.split(at_bot)[1]`: the text after the first mention, up to the
   * next one, so it never holds another mention: a second one cuts it short.
   */
  function MentionText(text: string, atBot: string): (r: string)
    requires atBot != [] && Contains(text, atBot)
    ensures !Contains(r, atBot)
  {
    var b := MentionBounds(text, atBot);
    PieceClear(text, atBot);
    text[b.0..b.1]
  }

  /** The range of `MentionBounds` holds no mention. */
  lemma PieceClear(text: string, atBot: string)
    requires atBot != [] && Contains(text, atBot)
    ensures var b := MentionBounds(text, atBot); !Contains(text[b.0..b.1], atBot)
  {
    var b := MentionBounds(text, atBot);
    MentionBoundsClear(text, atBot);
    var piece := text[b.0..b.1];
    forall q: nat | q + |atBot| <= |piece|
      ensures !OccursAt(piece, atBot, q)
    {
      assert b.0 + q + |atBot| <= b.1;
      assert forall i :: q <= i < q + |atBot| ==> piece[i] == text[b.0 + i];
      assert piece[q..q + |atBot|] == text[b.0 + q..b.0 + q + |atBot|];
      assert !OccursAt(text, atBot, b.0 + q);
    }
  }

  /** A message that starts with the mention and holds no other: the piece is the rest of the message. */
  lemma MentionAtStart(atBot: string, rest: string)
    requires atBot != []
    requires forall k :: 1 <= k <= |atBot + rest| ==> !OccursAt(atBot + rest, atBot, k)
    ensures Contains(atBot + rest, atBot) && MentionText(atBot + rest, atBot) == rest
  {
    var text := atBot + rest;
    assert text[0..|atBot|] == atBot;
    assert OccursAt(text, atBot, 0);
    assert FindFrom(text, atBot, 0) == Some(0);
    assert FindFrom(text, atBot, |atBot|).None?;
    assert text[|atBot|..] == rest;
  }

  /** Lower-casing touches only `A`..`Z`, so a trimmed string stays trimmed. */
  lemma LowerTrimmed(s: string)
    requires s != [] ==> !IsSpace(s[0]) && !IsSpace(s[|s| - 1])
    ensures IsLower(Lower(s))
    ensures Lower(s) != [] ==> !IsSpace(Lower(s)[0]) && !IsSpace(Lower(s)[|s| - 1])
  {
  }

  /** What `parse_slack_output` returns for an event that mentions the bot: the piece, stripped and lower-cased. */
  function CommandText(text: string, atBot: string): (r: string)
    requires atBot != [] && Contains(text, atBot)
    ensures IsLower(r)
    ensures r != [] ==> !IsSpace(r[0]) && !IsSpace(r[|r| - 1])
  {
    var s := Strip(MentionText(text, atBot));
    LowerTrimmed(s);
    Lower(s)
  }

  /** `output and 'text' in output and AT_BOT in output['text']`. */
  predicate Mentions(atBot: string, e: Event) {
    e.text.Some? && Contains(e.text.value, atBot)
  }

  /** `parse_slack_output` from event `from` on: the command and channel of the first event that mentions the bot. */
  function FirstMention(atBot: string, events: seq<Event>, from: nat): (r: Option<(string, string)>)
    requires atBot != [] && from <= |events|
    ensures r.None? <==> forall k :: from <= k < |events| ==> !Mentions(atBot, events[k])
    ensures r.Some? ==> exists k :: from <= k < |events| && Mentions(atBot, events[k])
                          && (forall j :: from <= j < k ==> !Mentions(atBot, events[j]))
                          && r.value == (CommandText(events[k].text.value, atBot), events[k].channel)
    decreases |events| - from
  {
    if from == |events| then None
    else if Mentions(atBot, events[from]) then
      Some((CommandText(events[from].text.value, atBot), events[from].channel))
    else FirstMention(atBot, events, from + 1)
  }

  /** Events after the first one that mentions the bot change nothing. */
  lemma {:induction false} LaterEventsIgnored(atBot: string, events: seq<Event>, more: seq<Event>, from: nat)
    requires atBot != [] && from <= |events|
    requires exists k :: from <= k < |events| && Mentions(atBot, events[k])
    ensures FirstMention(atBot, events + more, from) == FirstMention(atBot, events, from)
    decreases |events| - from
  {
    assert (events + more)[from] == events[from];
    if !Mentions(atBot, events[from]) {
      LaterEventsIgnored(atBot, events, more, from + 1);
    }
  }

  /** `parse_slack_output` of `bot.py`, loop as written: the first event that mentions the bot, or `(None, None)`. */
  method ParseSlackOutput(atBot: string, events: seq<Event>) returns (r: Option<(string, string)>)
    requires atBot != []
    ensures r == FirstMention(atBot, events, 0)
  {
    var i := 0;
    while i < |events|
      invariant 0 <= i <= |events|
      invariant FirstMention(atBot, events, 0) == FirstMention(atBot, events, i)
    {
      var output := events[i];
      if output.text.Some? && Contains(output.text.value, atBot) {
        return Some((CommandText(output.text.value, atBot), output.channel));
      }
      i := i + 1;
    }
    return None;
  }

  /** The Slack client, with the messages posted through it. */
  class SlackClient {
    var posts: seq<Post>

    constructor()
      ensures posts == []
    {
      posts := [];
    }

    /** `api_call("chat.postMessage", channel=..., text=..., as_user=True)`. */
    method PostMessage(channel: string, text: string)
      modifies this
      ensures posts == old(posts) + [Post(channel, text)]
    {
      posts := posts + [Post(channel, text)];
    }
  }

  /** `handle_command` of `bot.py`: exactly one post, to the given channel. */
  method HandleCommand(client: SlackClient, run: Handlers, command: string, channel: string)
    modifies client
    ensures client.posts == old(client.posts) + [Post(channel, Reply(run, command))]
  {
    var response := Default;
    var keyword := Keyword(command);
    if keyword == "help" {
      response := HelpText(KEYS);
    } else if HandlerOf(keyword).Some? {
      var outcome := run(HandlerOf(keyword).value, command);
      response := Translate(outcome);
    }
    client.PostMessage(channel, response);
  }
}
