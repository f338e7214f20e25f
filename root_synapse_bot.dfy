/**
 * `synapse_bot.py`: the class version of the first bot. It differs from
 * `bot.py` in three ways: the mention is built from the bot id the object
 * was made with, the table has a fourth key, `iam`, and the keyword is
 * lower-cased before it is looked up. Reading the mention and translating
 * errors are shared with `bot.py` and live in module RootBot.
 */
module RootSynapseBot {
  import opened Wrappers
  import opened Text
  import opened Model
  import RootBot

  /** The keys of `SynapseBot.COMMANDS`, in the order the table lists them. */
  const KEYS: seq<string> := ["list", "iam", "send", "whoami"]

  /** `COMMANDS[keyword]`, if the keyword is a key. */
  function HandlerOf(keyword: string): (r: Option<RootBot.RootFn>)
    ensures r.Some? <==> keyword in KEYS
  {
    if keyword == "list" then Some(RootBot.ListResource)
    else if keyword == "iam" then Some(RootBot.IAm)
    else if keyword == "send" then Some(RootBot.Send)
    else if keyword == "whoami" then Some(RootBot.WhoAmI)
    else None
  }

  /** Every key names a different handler. */
  lemma HandlersDistinct(a: string, b: string)
    requires a in KEYS && b in KEYS && a != b
    ensures HandlerOf(a) != HandlerOf(b)
  {
  }

  /** The keyword: the lower-cased command up to its first space. */
  function Keyword(command: string): (r: string)
    ensures ' ' !in r && IsLower(r) && IsPrefix(r, Lower(command))
  {
    var lowered := Lower(command);
    var w := SplitOnce(lowered, ' ')[0];
    assert ' ' in lowered ==> lowered == w + [' '] + SplitOnce(lowered, ' ')[1];
    w
  }

  /** The keyword does not depend on case: a command and its lower-cased form pick the same entry. */
  lemma KeywordIgnoresCase(command: string)
    ensures Keyword(command) == Keyword(Lower(command))
  {
    LowerOfLower(Lower(command));
  }

  /**
   * The text `handle_command` posts: `help`, a key, or the default text. The
   * handler gets the command as typed, not lower-cased.
   */
  function Reply(run: RootBot.Handlers, command: string): (r: string)
    ensures Keyword(command) == "help" ==> r == RootBot.HelpText(KEYS)
    ensures Keyword(command) in KEYS ==> r == RootBot.Translate(run(HandlerOf(Keyword(command)).value, command))
    ensures Keyword(command) != "help" && Keyword(command) !in KEYS ==> r == RootBot.Default
  {
    var keyword := Keyword(command);
    if keyword == "help" then RootBot.HelpText(KEYS)
    else match HandlerOf(keyword)
      case Some(f) => RootBot.Translate(run(f, command))
      case None => RootBot.Default
  }

  /** Unlike `bot.py`, `HELP` is understood as `help`. */
  lemma UpperCaseHelp(run: RootBot.Handlers)
    ensures Reply(run, "HELP") == RootBot.HelpText(KEYS)
    ensures RootBot.Reply(run, "HELP") == RootBot.Default
  {
    assert Lower("HELP") == "help";
    assert ' ' !in "help";
    RootBot.UpperCaseUnknown(run);
  }

  /** `help` lists the four keys, one per line, in table order. */
  lemma HelpListsKeys()
    ensures Split(RootBot.HelpText(KEYS)[|RootBot.HelpHeader|..], '\n') == ["list", "iam", "send", "whoami"]
  {
    RootBot.HelpTextLists(KEYS);
  }

  /** `SynapseBot`: a Slack client and the bot's id. */
  class SynapseBot {
    const slackClient: RootBot.SlackClient
    const botId: string

    constructor(slackClient: RootBot.SlackClient, botId: string)
      ensures this.slackClient == slackClient && this.botId == botId
    {
      this.slackClient := slackClient;
      this.botId := botId;
    }

    /** `at_bot()`: the mention markup for this bot. */
    function AtBot(): (r: string)
      ensures r == "<@" + botId + ">" && r != []
    {
      "<@" + botId + ">"
    }

    /** `handle_command`: exactly one post, to the given channel, through the client. */
    method HandleCommand(run: RootBot.Handlers, command: string, channel: string)
      modifies slackClient
      ensures slackClient.posts == old(slackClient.posts) + [Post(channel, Reply(run, command))]
    {
      var response := RootBot.Default;
      var keyword := Keyword(command);
      if keyword == "help" {
        response := RootBot.HelpText(KEYS);
      } else if HandlerOf(keyword).Some? {
        var outcome := run(HandlerOf(keyword).value, command);
        response := RootBot.Translate(outcome);
      }
      slackClient.PostMessage(channel, response);
    }

    /** `parse_slack_output`: the same scan as `bot.py`'s, with this bot's mention. */
    method ParseSlackOutput(events: seq<Event>) returns (r: Option<(string, string)>)
      ensures r == RootBot.FirstMention(AtBot(), events, 0)
    {
      r := RootBot.ParseSlackOutput(AtBot(), events);
    }
  }
}
