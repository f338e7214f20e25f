/**
 * `Bot` of `app/bot.py`, the earlier bot: its own command table, a help text
 * built from it, and an `execute_command` that looks the Slack user up itself
 * and answers an unregistered one with a link to the registration form. The
 * posts are kept in an outbox; the lookup and the handlers are parameters.
 */
module LegacyBot {
  import opened Wrappers
  import opened Text
  import opened Model
  import Parser
  import Dispatcher

  /** The handler functions `Bot.COMMANDS` points at. */
  datatype LegacyFn = Whoami | Balance | Save | Cancel | History | ListNodes | VerifyNode

  /** The keys of `Bot.COMMANDS`, in the order the table lists them. */
  const KEYS: seq<string> := ["whoami", "balance", "save", "cancel", "history", "nodes", "verify"]

  /** `self.COMMANDS[keyword]['function_name']`, if the keyword is a key. */
  function HandlerOf(keyword: string): Option<LegacyFn> {
    if keyword == "whoami" then Some(Whoami)
    else if keyword == "balance" then Some(Balance)
    else if keyword == "save" then Some(Save)
    else if keyword == "cancel" then Some(Cancel)
    else if keyword == "history" then Some(History)
    else if keyword == "nodes" then Some(ListNodes)
    else if keyword == "verify" then Some(VerifyNode)
    else None
  }

  /** The key under which the table lists a handler. */
  function KeyOf(h: LegacyFn): string {
    match h
    case Whoami => "whoami"
    case Balance => "balance"
    case Save => "save"
    case Cancel => "cancel"
    case History => "history"
    case ListNodes => "nodes"
    case VerifyNode => "verify"
  }

  /** What the example of a handler's command says after `@synapse <key>`. */
  function Usage(h: LegacyFn): string {
    match h
    case Whoami => ""
    case Balance => ""
    case Save => " `[amount]` (in `[number]` days) / (every `[number]` days)"
    case Cancel => " `[transaction_id]`"
    case History => ""
    case ListNodes => ""
    case VerifyNode => " `[microdeposit amount 1]` `[microdeposit amount 2]`"
  }

  /** The description the table gives a handler's command. */
  function Description(h: LegacyFn): string {
    match h
    case Whoami => "Return basic information about the user:"
    case Balance => "List savings balance:"
    case Save => "Schedule a one-time or recurring savings transfer:"
    case Cancel => "Cancel a transaction that has not yet settled:"
    case History => "List most recent transaction history:"
    case ListNodes => "List the bank accounts associated with the user:"
    case VerifyNode => "Activate a node by verifying micro-deposit amounts:"
  }

  /** `COMMANDS[keyword]['example']`. */
  function Example(h: LegacyFn): string {
    "@synapse " + KeyOf(h) + Usage(h)
  }

  /** A keyword has an entry exactly when it is one of the seven keys, and that entry is listed under it. */
  lemma KeysHandled(keyword: string)
    ensures HandlerOf(keyword).Some? <==> keyword in KEYS
    ensures HandlerOf(keyword).Some? ==> KeyOf(HandlerOf(keyword).value) == keyword
  {
  }

  /** The seven keys are distinct, and `help` is not one of them. */
  lemma KeysDistinct()
    ensures |KEYS| == 7
    ensures forall i, j :: 0 <= i < j < |KEYS| ==> KEYS[i] != KEYS[j]
    ensures "help" !in KEYS
  {
  }

  /** Every example is `@synapse`, a space and the key it is listed under. */
  lemma ExampleStartsWithKey(h: LegacyFn)
    ensures IsPrefix("@synapse " + KeyOf(h), Example(h))
  {
    var p := "@synapse " + KeyOf(h);
    assert Example(h)[..|p|] == p;
  }

  // ---------------------------------------------------------------- help

  /** One block of `help`: the description in bold, then the quoted example. */
  function HelpBlock(h: LegacyFn): string {
    "*" + Description(h) + "*\n" + ">" + Example(h)
  }

  /** The blocks of `help` for some keys of the table, in order. */
  function HelpBlocks(keys: seq<string>): (r: seq<string>)
    requires forall k :: 0 <= k < |keys| ==> keys[k] in KEYS
    ensures |r| == |keys|
    ensures forall i :: 0 <= i < |keys| ==> HandlerOf(keys[i]).Some? && r[i] == HelpBlock(HandlerOf(keys[i]).value)
  {
    seq(|keys|, i requires 0 <= i < |keys| => KeysHandled(keys[i]); HelpBlock(HandlerOf(keys[i]).value))
  }

  /** `help`: one block per key, joined by blank lines. */
  function Help(): (r: string)
    ensures forall h: LegacyFn :: Contains(r, HelpBlock(h))
  {
    HelpShowsAll();
    JoinSep(HelpBlocks(KEYS), "\n\n")
  }

  lemma HelpShowsAll()
    ensures forall h: LegacyFn :: Contains(JoinSep(HelpBlocks(KEYS), "\n\n"), HelpBlock(h))
  {
    forall h: LegacyFn
      ensures Contains(JoinSep(HelpBlocks(KEYS), "\n\n"), HelpBlock(h))
    {
      KeyOfHandler(h);
      KeysHandled(KeyOf(h));
      HelpShowsEvery(KEYS, h);
    }
  }

  /** `help` over some keys of the table shows the description and the example of each of their commands. */
  lemma HelpShowsEvery(keys: seq<string>, h: LegacyFn)
    requires forall k :: 0 <= k < |keys| ==> keys[k] in KEYS
    requires KeyOf(h) in keys
    ensures Contains(JoinSep(HelpBlocks(keys), "\n\n"), HelpBlock(h))
  {
    var i :| 0 <= i < |keys| && keys[i] == KeyOf(h);
    KeyOfHandler(h);
    JoinSepContains(HelpBlocks(keys), "\n\n", i);
  }

  /** A handler's key leads back to it. */
  lemma KeyOfHandler(h: LegacyFn)
    ensures HandlerOf(KeyOf(h)) == Some(h)
  {
  }

  // ---------------------------------------------------------------- execution

  const RegisterLink: string := "*Please register first!*\n> http://104.236.189.18/register/"

  /** `registration_prompt`: a link to the registration form of this Slack user. */
  function RegistrationPrompt(slackId: string): (r: string)
    ensures Contains(r, "/register/" + slackId)
    ensures IsSuffix(slackId, r)
  {
    var r := RegisterLink + slackId;
    var tail := "/register/";
    var k := |RegisterLink| - |tail|;
    assert r[k..k + |tail + slackId|] == tail + slackId;
    ContainsAt(r, tail + slackId, k);
    assert r[|r| - |slackId|..] == slackId;
    r
  }

  /** What `synapse_user_from_slack_user_id` comes to: no row, the provider's user (shown as `str()` shows it), or a `SynapsePayError`. */
  datatype Resolution = Unregistered | Resolved(user: string) | ResolveFailed(message: string)

  /** Runs a handler of the table on the Slack id, the provider's user and the parameters. */
  type Handlers = (LegacyFn, string, string, Params) -> Outcome

  /**
   * What the bot is set up with: the mention it answers to, its parser
   * (`Parser.LegacyKeywordAndParams`), the text `help` builds, the user lookup
   * and the handlers.
   */
  datatype Config = Config(atBot: string, parse: Dispatcher.Parsing, help: string, resolve: string -> Resolution, run: Handlers)

  /** The posts `execute_command` makes, and what it returns; `None` when the lookup's exception escapes it. */
  datatype Execution = Execution(posts: seq<Post>, response: Option<string>)

  /**
   * `execute_command`: acknowledge, look the user up (outside the `try`, so a
   * provider error there escapes), post the user, then run the handler only
   * for a registered user and post its translated response.
   */
  function Execute(c: Config, h: LegacyFn, slackId: string, params: Params, channel: string): (r: Execution)
    ensures r.posts != [] && r.posts[0] == Post(channel, Dispatcher.Ack)
    ensures forall k :: 0 <= k < |r.posts| ==> r.posts[k].channel == channel
    ensures r.response.None? <==> c.resolve(slackId).ResolveFailed?
    ensures c.resolve(slackId).Unregistered? ==> r.response == Some(RegistrationPrompt(slackId))
    ensures c.resolve(slackId).Resolved? ==>
              r.response == Some(Dispatcher.Respond(c.run(h, slackId, c.resolve(slackId).user, params)))
  {
    var ack := Post(channel, Dispatcher.Ack);
    match c.resolve(slackId)
    case ResolveFailed(_) => Execution([ack], None)
    case Unregistered =>
      var response := RegistrationPrompt(slackId);
      Execution([ack, Post(channel, "synapse_user: None"), Post(channel, "response: " + response)], Some(response))
    case Resolved(u) =>
      var response := Dispatcher.Respond(c.run(h, slackId, u, params));
      Execution([ack, Post(channel, "synapse_user: " + u), Post(channel, "response: " + response)], Some(response))
  }

  /**
   * `handle_command`: `help`, a key of the table, or anything else. A field
   * list that makes `dict()` raise escapes before anything is posted, and a
   * failed lookup escapes after the acknowledgement.
   */
  function CommandPosts(c: Config, e: Event): (r: Dispatcher.Handled)
    requires e.text.Some?
    ensures forall k :: 0 <= k < |r.posts| ==> r.posts[k].channel == e.channel
    ensures !r.crashed ==> r.posts != []
  {
    match c.parse(e.text.value)
    case DictFailed => Dispatcher.Handled([], true)
    case Unparsed => Dispatcher.Handled([Post(e.channel, Dispatcher.Fallback)], false)
    case Parsed(keyword, params) =>
      if keyword == "help" then Dispatcher.Handled([Post(e.channel, c.help)], false)
      else match HandlerOf(keyword)
        case None => Dispatcher.Handled([Post(e.channel, Dispatcher.Fallback)], false)
        case Some(h) =>
          var x := Execute(c, h, e.user, params, e.channel);
          if x.response.None? then Dispatcher.Handled(x.posts, true)
          else Dispatcher.Handled(x.posts + [Post(e.channel, x.response.value)], false)
  }

  /** The events of the batch from `from` on that mention the bot, in order, until one raises. */
  function Batch(c: Config, events: seq<Event>, from: nat): (r: Dispatcher.Handled)
    requires from <= |events|
    ensures r.crashed <==> exists k :: from <= k < |events| && Dispatcher.IsCommand(c.atBot, events[k])
                                       && CommandPosts(c, events[k]).crashed
    decreases |events| - from
  {
    if from == |events| then Dispatcher.Handled([], false)
    else if !Dispatcher.IsCommand(c.atBot, events[from]) then Batch(c, events, from + 1)
    else
      var first := CommandPosts(c, events[from]);
      if first.crashed then first
      else Dispatcher.After(first.posts, Batch(c, events, from + 1))
  }

  /** The bot, with the posts it has made. */
  class Bot {
    const config: Config
    /** Every `chat.postMessage` call made so far, in order. */
    var outbox: seq<Post>

    constructor(botId: string, resolve: string -> Resolution, run: Handlers)
      ensures config == Config("<@" + botId + ">", Parser.LegacyKeywordAndParams, Help(), resolve, run) && outbox == []
    {
      config := Config("<@" + botId + ">", Parser.LegacyKeywordAndParams, Help(), resolve, run);
      outbox := [];
    }

    /** `post_to_channel`. */
    method PostToChannel(channel: string, text: string)
      modifies this
      ensures outbox == old(outbox) + [Post(channel, text)]
    {
      outbox := outbox + [Post(channel, text)];
    }

    /** `execute_command`; `response` is `None` when the lookup raised. */
    method ExecuteCommand(h: LegacyFn, slackId: string, params: Params, channel: string)
      returns (response: Option<string>)
      modifies this
      ensures outbox == old(outbox) + Execute(config, h, slackId, params, channel).posts
      ensures response == Execute(config, h, slackId, params, channel).response
    {
      PostToChannel(channel, Dispatcher.Ack);
      var user := config.resolve(slackId);
      if user.ResolveFailed? {
        return None;
      }
      if user.Resolved? {
        PostToChannel(channel, "synapse_user: " + user.user);
      } else {
        PostToChannel(channel, "synapse_user: None");
      }
      var text := RegistrationPrompt(slackId);
      if user.Resolved? {
        var outcome := config.run(h, slackId, user.user, params);
        text := Dispatcher.Respond(outcome);
      }
      PostToChannel(channel, "response: " + text);
      response := Some(text);
    }

    /** `handle_command`; `crashed` is set when an exception escapes it. */
    method HandleCommand(e: Event) returns (crashed: bool)
      requires e.text.Some?
      modifies this
      ensures outbox == old(outbox) + CommandPosts(config, e).posts
      ensures crashed == CommandPosts(config, e).crashed
    {
      var parsed := config.parse(e.text.value);
      if parsed.DictFailed? {
        return true;
      }
      var response;
      if parsed.Parsed? && parsed.keyword == "help" {
        response := config.help;
      } else if parsed.Parsed? && HandlerOf(parsed.keyword).Some? {
        var r := ExecuteCommand(HandlerOf(parsed.keyword).value, e.user, parsed.params, e.channel);
        if r.None? {
          return true;
        }
        response := r.value;
      } else {
        response := Dispatcher.Fallback;
      }
      PostToChannel(e.channel, response);
      crashed := false;
    }

    /** `parse_slack_output`: every event that mentions the bot, in order; an escaping exception ends the batch. */
    method ParseSlackOutput(events: seq<Event>) returns (crashed: bool)
      modifies this
      ensures outbox == old(outbox) + Batch(config, events, 0).posts
      ensures crashed == Batch(config, events, 0).crashed
    {
      ghost var done: seq<Post> := [];
      var i := 0;
      while i < |events|
        invariant 0 <= i <= |events|
        invariant outbox == old(outbox) + done
        invariant Batch(config, events, 0) == Dispatcher.After(done, Batch(config, events, i))
      {
        BatchAdvance(config, events, i, done);
        if Dispatcher.IsCommand(config.atBot, events[i]) {
          var failed := HandleCommand(events[i]);
          Dispatcher.PostsAssoc(old(outbox), done, CommandPosts(config, events[i]).posts);
          if failed {
            return true;
          }
          done := done + CommandPosts(config, events[i]).posts;
        }
        i := i + 1;
      }
      crashed := false;
    }
  }

  // ---------------------------------------------------------------- properties

  /**
   * A registered user's command: the acknowledgement, the user, the
   * response, then the response again as the final reply, all in the
   * event's channel.
   */
  lemma RegisteredPosts(c: Config, e: Event, keyword: string, params: Params, h: LegacyFn, u: string)
    requires e.text.Some? && c.parse(e.text.value) == Parser.Parsed(keyword, params)
    requires HandlerOf(keyword) == Some(h) && c.resolve(e.user) == Resolved(u)
    ensures var response := Dispatcher.Respond(c.run(h, e.user, u, params));
      CommandPosts(c, e) == Dispatcher.Handled([
        Post(e.channel, Dispatcher.Ack), Post(e.channel, "synapse_user: " + u),
        Post(e.channel, "response: " + response), Post(e.channel, response)], false)
  {
    KeysHandled(keyword);
  }

  /** One step of the batch: an event that does not mention the bot is passed over. */
  lemma BatchAt(c: Config, events: seq<Event>, i: nat)
    requires i < |events|
    ensures !Dispatcher.IsCommand(c.atBot, events[i]) ==> Batch(c, events, i) == Batch(c, events, i + 1)
    ensures Dispatcher.IsCommand(c.atBot, events[i]) ==>
              var first := CommandPosts(c, events[i]);
              Batch(c, events, i) == if first.crashed then first else Dispatcher.After(first.posts, Batch(c, events, i + 1))
  {
  }

  /** One event further into the batch: what the batch is, in terms of the posts made so far. */
  lemma BatchAdvance(c: Config, events: seq<Event>, i: nat, done: seq<Post>)
    requires i < |events| && Batch(c, events, 0) == Dispatcher.After(done, Batch(c, events, i))
    ensures !Dispatcher.IsCommand(c.atBot, events[i]) ==>
              Batch(c, events, 0) == Dispatcher.After(done, Batch(c, events, i + 1))
    ensures Dispatcher.IsCommand(c.atBot, events[i]) && CommandPosts(c, events[i]).crashed ==>
              Batch(c, events, 0) == Dispatcher.After(done, CommandPosts(c, events[i]))
    ensures Dispatcher.IsCommand(c.atBot, events[i]) && !CommandPosts(c, events[i]).crashed ==>
              Batch(c, events, 0) == Dispatcher.After(done + CommandPosts(c, events[i]).posts, Batch(c, events, i + 1))
  {
    BatchAt(c, events, i);
    if Dispatcher.IsCommand(c.atBot, events[i]) {
      Dispatcher.AfterAfter(done, CommandPosts(c, events[i]).posts, Batch(c, events, i + 1));
    }
  }

  /**
   * An unregistered user's command never reaches a handler: whatever the
   * handlers do, the posts are the acknowledgement, `None` for the user and
   * the registration prompt, twice.
   */
  lemma UnregisteredPosts(c: Config, e: Event, keyword: string, params: Params)
    requires e.text.Some? && c.parse(e.text.value) == Parser.Parsed(keyword, params)
    requires HandlerOf(keyword).Some? && c.resolve(e.user) == Unregistered
    ensures forall run: Handlers :: CommandPosts(Config(c.atBot, c.parse, c.help, c.resolve, run), e) == CommandPosts(c, e)
    ensures CommandPosts(c, e) == Dispatcher.Handled([
        Post(e.channel, Dispatcher.Ack), Post(e.channel, "synapse_user: None"),
        Post(e.channel, "response: " + RegistrationPrompt(e.user)), Post(e.channel, RegistrationPrompt(e.user))], false)
  {
    var h := HandlerOf(keyword).value;
    var prompt := RegistrationPrompt(e.user);
    var posts := [Post(e.channel, Dispatcher.Ack), Post(e.channel, "synapse_user: None"), Post(e.channel, "response: " + prompt)];
    forall run: Handlers
      ensures CommandPosts(Config(c.atBot, c.parse, c.help, c.resolve, run), e) == Dispatcher.Handled(posts + [Post(e.channel, prompt)], false)
    {
      ExecuteUnregistered(Config(c.atBot, c.parse, c.help, c.resolve, run), h, e.user, params, e.channel);
    }
    assert c == Config(c.atBot, c.parse, c.help, c.resolve, c.run);
  }

  /** `execute_command` for a Slack user without a local row. */
  lemma ExecuteUnregistered(c: Config, h: LegacyFn, slackId: string, params: Params, channel: string)
    requires c.resolve(slackId) == Unregistered
    ensures Execute(c, h, slackId, params, channel) == Execution(
      [Post(channel, Dispatcher.Ack), Post(channel, "synapse_user: None"), Post(channel, "response: " + RegistrationPrompt(slackId))],
      Some(RegistrationPrompt(slackId)))
  {
  }

  /** A provider error while looking the user up escapes after the acknowledgement: nothing else is posted. */
  lemma LookupFailureEscapes(c: Config, e: Event, keyword: string, params: Params, message: string)
    requires e.text.Some? && c.parse(e.text.value) == Parser.Parsed(keyword, params)
    requires HandlerOf(keyword).Some? && c.resolve(e.user) == ResolveFailed(message)
    ensures CommandPosts(c, e) == Dispatcher.Handled([Post(e.channel, Dispatcher.Ack)], true)
  {
    KeysHandled(keyword);
  }

  /** `help` and unknown keywords get one post, and reach no handler and no lookup. */
  lemma NoHandlerForOthers(c: Config, e: Event)
    requires e.text.Some?
    requires match c.parse(e.text.value)
             case Parsed(keyword, _) => HandlerOf(keyword).None?
             case Unparsed => true
             case DictFailed => false
    ensures forall resolve: string -> Resolution, run: Handlers ::
              CommandPosts(Config(c.atBot, c.parse, c.help, resolve, run), e) == CommandPosts(c, e)
    ensures var p := c.parse(e.text.value);
      CommandPosts(c, e) == Dispatcher.Handled(
        [Post(e.channel, if p.Parsed? && p.keyword == "help" then c.help else Dispatcher.Fallback)], false)
  {
  }

  /** Only events that mention the bot reach `handle_command`: a batch without a mention posts nothing. */
  lemma {:induction false} BatchWithoutMention(c: Config, events: seq<Event>, from: nat)
    requires from <= |events|
    requires forall k :: from <= k < |events| ==> !Dispatcher.IsCommand(c.atBot, events[k])
    ensures Batch(c, events, from) == Dispatcher.Handled([], false)
    decreases |events| - from
  {
    if from < |events| {
      BatchWithoutMention(c, events, from + 1);
    }
  }

  /** Without a lone malformed-field clash and with every user registered and found, a batch never stops early. */
  lemma {:induction false} BatchCompletes(c: Config, events: seq<Event>, from: nat)
    requires from <= |events|
    requires forall k :: from <= k < |events| && Dispatcher.IsCommand(c.atBot, events[k]) ==>
               !c.parse(events[k].text.value).DictFailed?
               && !c.resolve(events[k].user).ResolveFailed?
    ensures !Batch(c, events, from).crashed
    decreases |events| - from
  {
    if from < |events| {
      BatchCompletes(c, events, from + 1);
    }
  }
}
