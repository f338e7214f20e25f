/**
 * `SynapseBot` of `synapse_slackbot/app/synapse_bot.py`: it picks the events
 * of a batch that mention the bot, routes each through the command table and
 * posts the replies. The posts it makes are kept in an outbox; the handlers
 * the table points at are a parameter, given as the outcome of running one.
 */
module Dispatcher {
  import opened Wrappers
  import opened Text
  import opened Model
  import Parser
  import Directory = CommandsDirectory

  /** Runs a handler of the table on a Slack user id and its parameters. */
  type Handlers = (Directory.CommandFn, string, Params) -> Outcome

  /** `keyword_and_params_from_text`, as the bot holds it: `Parser.KeywordAndParams`. */
  type Parsing = string -> Parser.Parse

  /**
   * What the bot is set up with: the mention it answers to (`<@bot_id>`), its
   * parser, the text `help` builds, and the handlers of the table.
   */
  datatype Config = Config(atBot: string, parse: Parsing, help: string, run: Handlers)

  const Ack: string := "Processing command..."
  const Fallback: string := "*Not sure what you mean. Try this:*\n>@synapse help"
  const HttpError: string := "An HTTP error occurred while trying to communicate with the Synapse API:\n"
  const OtherErrorHeader: string := "An error occurred:\n"

  /**
   * The text `execute_command` posts for a handler's outcome: its reply, or
   * the translation of the exception it raised, so that none escapes.
   */
  function Respond(o: Outcome): (r: string)
    ensures o.Ok? ==> r == o.text
    ensures o.ProviderError? ==> IsPrefix(HttpError, r) && r[|HttpError|..] == o.message
    ensures o.OtherError? ==> IsPrefix(OtherErrorHeader + TypeText(o.exception.kind) + ": ", r)
                              && IsSuffix(o.exception.detail, r)
  {
    match o
    case Ok(text) => text
    case ProviderError(message) =>
      var r := HttpError + message;
      assert r[..|HttpError|] == HttpError && r[|HttpError|..] == message;
      r
    case OtherError(e) =>
      var head := OtherErrorHeader + TypeText(e.kind) + ": ";
      var r := head + e.detail;
      assert r[..|head|] == head && r[|head|..] == e.detail;
      r
  }

  /** `is_command`: the event has a text that mentions the bot. */
  predicate IsCommand(atBot: string, e: Event) {
    e.text.Some? && Contains(e.text.value, atBot)
  }

  /** `is_doc_upload`: the event has a file whose initial comment mentions the bot. */
  predicate IsDocUpload(atBot: string, e: Event) {
    e.file.Some? && e.file.value.initialComment.Some? && Contains(e.file.value.initialComment.value, atBot)
  }

  /** One block of `help`: the description in bold, then the quoted example. */
  function HelpBlock(keyword: string): string
    requires keyword in Directory.KEYS
  {
    Directory.KeysHandled(keyword);
    "*" + Directory.Description(Directory.HandlerOf(keyword).value) + "*\n" + ">" + Directory.Example(keyword)
  }

  /** The blocks of `help`, one per key, in table order. */
  function HelpBlocks(keys: seq<string>): (r: seq<string>)
    requires forall k :: 0 <= k < |keys| ==> keys[k] in Directory.KEYS
    ensures |r| == |keys| && forall i :: 0 <= i < |keys| ==> r[i] == HelpBlock(keys[i])
  {
    seq(|keys|, i requires 0 <= i < |keys| => HelpBlock(keys[i]))
  }

  /** `help`: the blocks joined by blank lines. */
  function Help(): (r: string)
    ensures forall keyword :: keyword in Directory.KEYS ==> Contains(r, HelpBlock(keyword))
  {
    HelpShowsAll(Directory.KEYS);
    JoinSep(HelpBlocks(Directory.KEYS), "\n\n")
  }

  lemma HelpShowsAll(keys: seq<string>)
    requires forall k :: 0 <= k < |keys| ==> keys[k] in Directory.KEYS
    ensures forall keyword :: keyword in keys ==> Contains(JoinSep(HelpBlocks(keys), "\n\n"), HelpBlock(keyword))
  {
    forall keyword | keyword in keys
      ensures Contains(JoinSep(HelpBlocks(keys), "\n\n"), HelpBlock(keyword))
    {
      HelpShowsEvery(keys, keyword);
    }
  }

  /** `help` over keys of the table holds the block of each of them. */
  lemma HelpShowsEvery(keys: seq<string>, keyword: string)
    requires forall k :: 0 <= k < |keys| ==> keys[k] in Directory.KEYS
    requires keyword in keys
    ensures Contains(JoinSep(HelpBlocks(keys), "\n\n"), HelpBlock(keyword))
  {
    var i :| 0 <= i < |keys| && keys[i] == keyword;
    JoinSepContains(HelpBlocks(keys), "\n\n", i);
  }

  /** What handling one event comes to: the posts made, and whether an exception escaped. */
  datatype Handled = Handled(posts: seq<Post>, crashed: bool)

  /** `execute_command`'s posts: the acknowledgement, then the handler's reply as `handle_*` posts it. */
  function ExecutePosts(run: Handlers, h: Directory.CommandFn, user: string, params: Params, channel: string): seq<Post> {
    [Post(channel, Ack), Post(channel, Respond(run(h, user, params)))]
  }

  /**
   * `handle_command`: `help`, a key of the table, or anything else. A field
   * list that makes `dict()` raise escapes before anything is posted.
   */
  function CommandPosts(c: Config, e: Event): (r: Handled)
    requires e.text.Some?
    ensures r.crashed ==> r.posts == []
    ensures !r.crashed ==> 1 <= |r.posts| <= 2
    ensures forall k :: 0 <= k < |r.posts| ==> r.posts[k].channel == e.channel
    ensures |r.posts| == 2 ==> r.posts[0].text == Ack
  {
    match c.parse(e.text.value)
    case DictFailed => Handled([], true)
    case Unparsed => Handled([Post(e.channel, Fallback)], false)
    case Parsed(keyword, params) =>
      if keyword == "help" then Handled([Post(e.channel, c.help)], false)
      else match Directory.HandlerOf(keyword)
        case Some(h) => Handled(ExecutePosts(c.run, h, e.user, params, e.channel), false)
        case None => Handled([Post(e.channel, Fallback)], false)
  }

  /**
   * `handle_doc_upload`: the `add_photo_id` handler (`add_physical_doc`) runs
   * on the file's permalink when the comment names it.
   */
  function UploadPosts(run: Handlers, e: Event): (r: Handled)
    requires e.file.Some? && e.file.value.initialComment.Some?
    ensures !r.crashed && 1 <= |r.posts| <= 2
    ensures forall k :: 0 <= k < |r.posts| ==> r.posts[k].channel == e.channel
    ensures |r.posts| == 2 <==> Contains(e.file.value.initialComment.value, "add_photo_id")
    ensures |r.posts| == 2 ==> r.posts[0].text == Ack
                               && r.posts[1].text == Respond(run(Directory.AddPhysicalDoc, e.user, FreeText(e.file.value.permalink)))
    ensures |r.posts| == 1 ==> r.posts[0].text == Fallback
  {
    if Contains(e.file.value.initialComment.value, "add_photo_id") then
      Handled(ExecutePosts(run, Directory.AddPhysicalDoc, e.user, FreeText(e.file.value.permalink), e.channel), false)
    else Handled([Post(e.channel, Fallback)], false)
  }

  /**
   * The routing of `handle_command`: `help` posts the help text, a key of the
   * table posts the acknowledgement and then the handler's translated reply,
   * and anything else (no space, or an unknown keyword) posts the fallback.
   */
  lemma CommandPostsCases(c: Config, e: Event)
    requires e.text.Some?
    ensures var p := c.parse(e.text.value);
      && (p.Parsed? && p.keyword == "help" ==> CommandPosts(c, e) == Handled([Post(e.channel, c.help)], false))
      && (p.Parsed? && p.keyword in Directory.KEYS ==>
            Directory.HandlerOf(p.keyword).Some?
            && CommandPosts(c, e) == Handled([Post(e.channel, Ack),
                 Post(e.channel, Respond(c.run(Directory.HandlerOf(p.keyword).value, e.user, p.params)))], false))
      && (p.Unparsed? || (p.Parsed? && p.keyword != "help" && p.keyword !in Directory.KEYS) ==>
            CommandPosts(c, e) == Handled([Post(e.channel, Fallback)], false))
  {
    var p := c.parse(e.text.value);
    if p.Parsed? {
      Directory.KeysHandled(p.keyword);
      Directory.KeysDistinct();
    }
  }

  /** One event of the batch: an upload first, then a command; anything else is passed over. */
  function EventPosts(c: Config, e: Event): (r: Handled)
    ensures r.crashed ==> IsCommand(c.atBot, e) && !IsDocUpload(c.atBot, e) && r.posts == []
    ensures r.posts == [] <==> r.crashed || (!IsDocUpload(c.atBot, e) && !IsCommand(c.atBot, e))
    ensures forall k :: 0 <= k < |r.posts| ==> r.posts[k].channel == e.channel
  {
    if IsDocUpload(c.atBot, e) then UploadPosts(c.run, e)
    else if IsCommand(c.atBot, e) then CommandPosts(c, e)
    else Handled([], false)
  }

  /**
   * An event that is both an upload and a command is handled as an upload
   * only: its text is never parsed, whatever the parser does with it.
   */
  lemma UploadBeforeCommand(c: Config, e: Event, parse: Parsing)
    requires IsDocUpload(c.atBot, e) && IsCommand(c.atBot, e)
    ensures EventPosts(c, e) == UploadPosts(c.run, e) && !EventPosts(c, e).crashed
    ensures EventPosts(Config(c.atBot, parse, c.help, c.run), e) == EventPosts(c, e)
  {
  }

  /** The posts of each event, one after the other, in batch order. */
  function AllPosts(c: Config, events: seq<Event>): seq<Post>
    decreases |events|
  {
    if events == [] then [] else EventPosts(c, events[0]).posts + AllPosts(c, events[1..])
  }

  /** When no event raises, the batch posts what each event posts, in order, and completes. */
  lemma {:induction false} BatchInOrder(c: Config, events: seq<Event>, from: nat)
    requires from <= |events|
    requires forall k :: from <= k < |events| ==> !EventPosts(c, events[k]).crashed
    ensures Batch(c, events, from) == Handled(AllPosts(c, events[from..]), false)
    decreases |events| - from
  {
    if from < |events| {
      BatchInOrder(c, events, from + 1);
      assert events[from..][1..] == events[from + 1..];
    }
  }

  /**
   * When event `k` is the first to raise, the batch posts what the events
   * before it post, nothing for it, and handles none after it.
   */
  lemma {:induction false} BatchStopsAt(c: Config, events: seq<Event>, from: nat, k: nat)
    requires from <= k < |events|
    requires forall j :: from <= j < k ==> !EventPosts(c, events[j]).crashed
    requires EventPosts(c, events[k]).crashed
    ensures Batch(c, events, from) == Handled(AllPosts(c, events[from..k]), true)
    decreases k - from
  {
    if from == k {
      assert events[from..k] == [];
    } else {
      BatchStopsAt(c, events, from + 1, k);
      assert events[from..k][1..] == events[from + 1..k];
    }
  }

  /** `parse_slack_output` from event `from` on: the events in order, until one raises. */
  function Batch(c: Config, events: seq<Event>, from: nat): (r: Handled)
    requires from <= |events|
    ensures r.crashed <==> exists k :: from <= k < |events| && EventPosts(c, events[k]).crashed
    decreases |events| - from
  {
    if from == |events| then Handled([], false)
    else
      var first := EventPosts(c, events[from]);
      if first.crashed then first
      else After(first.posts, Batch(c, events, from + 1))
  }

  /** The posts `d` made before the handling `h` of the rest. */
  function After(d: seq<Post>, h: Handled): Handled {
    Handled(d + h.posts, h.crashed)
  }

  /** The bot, with the posts it has made. */
  class SynapseBot {
    const config: Config
    /** Every `chat.postMessage` call made so far, in order. */
    var outbox: seq<Post>

    constructor(botId: string, run: Handlers)
      ensures config == Config("<@" + botId + ">", Parser.KeywordAndParams, Help(), run) && outbox == []
    {
      config := Config("<@" + botId + ">", Parser.KeywordAndParams, Help(), run);
      outbox := [];
    }

    /** `post_to_channel`. */
    method PostToChannel(channel: string, text: string)
      modifies this
      ensures outbox == old(outbox) + [Post(channel, text)]
    {
      outbox := outbox + [Post(channel, text)];
    }

    /** `execute_command`: acknowledge, then run the handler and translate what it raises. */
    method ExecuteCommand(run: Handlers, h: Directory.CommandFn, user: string, params: Params, channel: string)
      returns (response: string)
      modifies this
      ensures outbox == old(outbox) + [Post(channel, Ack)]
      ensures response == Respond(run(h, user, params))
    {
      PostToChannel(channel, Ack);
      var outcome := run(h, user, params);
      match outcome
      case Ok(text) => response := text;
      case ProviderError(message) => response := HttpError + message;
      case OtherError(e) => response := OtherErrorHeader + TypeText(e.kind) + ": " + e.detail;
    }

    /** `handle_command`; `crashed` is set when the parser's `ValueError` escapes. */
    method HandleCommand(e: Event) returns (crashed: bool)
      requires e.text.Some?
      modifies this
      ensures outbox == old(outbox) + CommandPosts(config, e).posts
      ensures crashed == CommandPosts(config, e).crashed
    {
      var parsed := config.parse(e.text.value);
      if parsed.DictFailed? {
        return true;
      }
      var response;
      if parsed.Parsed? && parsed.keyword == "help" {
        response := config.help;
      } else if parsed.Parsed? && Directory.HandlerOf(parsed.keyword).Some? {
        response := ExecuteCommand(config.run, Directory.HandlerOf(parsed.keyword).value, e.user, parsed.params, e.channel);
      } else {
        response := Fallback;
      }
      PostToChannel(e.channel, response);
      crashed := false;
    }

    /** `handle_doc_upload`. */
    method HandleDocUpload(e: Event)
      requires e.file.Some? && e.file.value.initialComment.Some?
      modifies this
      ensures outbox == old(outbox) + UploadPosts(config.run, e).posts
    {
      var comment := e.file.value.initialComment.value;
      var url := e.file.value.permalink;
      var response;
      if Contains(comment, "add_photo_id") {
        response := ExecuteCommand(config.run, Directory.AddPhysicalDoc, e.user, FreeText(url), e.channel);
      } else {
        response := Fallback;
      }
      PostToChannel(e.channel, response);
    }

    /** The body of the loop in `parse_slack_output`: an upload first, then a command. */
    method HandleEvent(e: Event) returns (crashed: bool)
      modifies this
      ensures outbox == old(outbox) + EventPosts(config, e).posts
      ensures crashed == EventPosts(config, e).crashed
    {
      crashed := false;
      if IsDocUpload(config.atBot, e) {
        HandleDocUpload(e);
      } else if IsCommand(config.atBot, e) {
        crashed := HandleCommand(e);
      }
    }

    /** `parse_slack_output`: every event of the batch in order; an escaping exception ends the batch. */
    method ParseSlackOutput(events: seq<Event>) returns (crashed: bool)
      modifies this
      ensures outbox == old(outbox) + Batch(config, events, 0).posts
      ensures crashed == Batch(config, events, 0).crashed
    {
      ghost var done: seq<Post> := [];
      var i := 0;
      while i < |events|
        invariant 0 <= i <= |events|
        invariant outbox == old(outbox) + done
        invariant Batch(config, events, 0) == After(done, Batch(config, events, i))
      {
        BatchAdvance(config, events, i, done);
        var failed := HandleEvent(events[i]);
        PostsAssoc(old(outbox), done, EventPosts(config, events[i]).posts);
        if failed {
          return true;
        }
        done := done + EventPosts(config, events[i]).posts;
        i := i + 1;
      }
      crashed := false;
    }
  }

  /** One event further into the batch: what the batch is, in terms of the posts made so far. */
  lemma BatchAdvance(c: Config, events: seq<Event>, i: nat, done: seq<Post>)
    requires i < |events| && Batch(c, events, 0) == After(done, Batch(c, events, i))
    ensures EventPosts(c, events[i]).crashed ==> Batch(c, events, 0) == After(done, EventPosts(c, events[i]))
    ensures !EventPosts(c, events[i]).crashed ==>
              Batch(c, events, 0) == After(done + EventPosts(c, events[i]).posts, Batch(c, events, i + 1))
  {
    AfterAfter(done, EventPosts(c, events[i]).posts, Batch(c, events, i + 1));
  }

  /** Posts appended in two steps are the posts appended at once. */
  lemma PostsAssoc(a: seq<Post>, b: seq<Post>, c: seq<Post>)
    ensures a + b + c == a + (b + c)
  {
  }

  /** Posts made before posts made before a handling. */
  lemma AfterAfter(d: seq<Post>, s: seq<Post>, h: Handled)
    ensures After(d, After(s, h)) == After(d + s, h)
  {
    assert d + (s + h.posts) == d + s + h.posts;
  }
}
