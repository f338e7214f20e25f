# SynapseFI Slack bot: the chat-command front end

This project models how the SynapseFI demo Slack bot handles chat commands.
The bot reads a Slack message that mentions it and drops the mention. It
lower-cases the rest and splits off a keyword. It un-wraps the `<mailto:…|x>`
and `<tel:…|x>` links Slack inserts, and parses `name value | name value`
into a field map. It then routes the keyword through a fixed command table
and turns each handler's outcome into reply text. The project also models the
registration page's three-tab wizard. The repository holds several snapshots
of the bot, and each is modelled on its own terms:

- `synapse_slackbot/app/`, the current bot:
  - module `Parser`: the message parser, including the `remove`-while-iterating loop of `params_string_to_dict` as a method proved against a specification function;
  - module `Hyperlinks`: `purge_hyperlinks`, with the two `re.sub` calls modelled as a leftmost-match search and replace-all;
  - module `CommandsDirectory`: the `COMMANDS` table;
  - module `Helpers`: the helpers, summaries and warnings;
  - module `Commands`: the validation and routing front ends of the handlers, over an oracle for the payments provider, and the local recurring-transaction table as a class;
  - module `Dispatcher`: the `SynapseBot` class, with an outbox of every message posted. `is_command` and `is_doc_upload` are the predicates `Dispatcher.IsCommand` and `Dispatcher.IsDocUpload`, whose definitions are equivalent to the source's tests for an event record (the source's leading `output and` test is always true for one).
- `app/bot.py`, the earlier bot with the registration gate: module `LegacyBot`.
- The first bots at the top of the repository:
  - `bot.py`: module `RootBot`, which also holds the mention reading and error translation shared with `synapse_bot.py`;
  - `synapse_bot.py`: module `RootSynapseBot`;
  - `commands.py`: module `RootCommands`.
- The registration page scripts:
  - `synapse_slackbot/static/register.js`: module `RegisterForm`, the `activeTab` state machine and the per-tab validators;
  - `synapse_slackbot/templates/register.js`: module `TemplateTabs`, the earlier back and next buttons.

Modules `Wrappers`, `Text` and `Model` hold the shared pieces:
- the Option and Result types;
- Python's `split`, `strip`, `lower` and `in` on strings;
- the events, posts, parameters, provider records and handler outcomes.

A handler's result is the abstract outcome `Ok(text)`, `ProviderError(message)` (a `SynapsePayError`) or `OtherError(exception)`. The payment provider's calls, the clock's calendar formatting and the local users table are parameters.

## Model

| member | source | states |
|---|---|---|
| CommandsDirectory.KeysHandled | synapse_slackbot/app/commands_directory.py:5-67 | a keyword has an entry exactly when it is one of the ten keys |
| CommandsDirectory.KeysDistinct | synapse_slackbot/app/commands_directory.py:5-67 | the ten keys are pairwise distinct and `help` is not one of them |
| CommandsDirectory.HandlerKey | synapse_slackbot/app/commands_directory.py:6-66 | a keyword's entry names handler h exactly when the keyword is the key listed for h: no handler sits under two keys |
| CommandsDirectory.Example | synapse_slackbot/app/commands_directory.py:5-67 | every example starts with `@synapse ` followed by its own key |
| CommandsDirectory.ExampleOf | synapse_slackbot/app/commands_directory.py:8-63 | a key's example is `@synapse `, the key and the usage of the handler listed under it |
| Helpers.FormatCurrency | synapse_slackbot/app/helpers.py:16-22 | fails with an IndexError exactly when the amount has no `.`; otherwise the text is the amount itself or the amount with one `0` appended |
| Helpers.FormatCurrencyOf | synapse_slackbot/app/helpers.py:16-22 | `whole.fraction` gets a `0` appended exactly when the fraction is one character long, and is unchanged otherwise; the copies at `synapse_slackbot/app/commands.py:116-122` and `commands.py:101-107` are the same code |
| Helpers.FirstWord | synapse_slackbot/app/helpers.py:25-30 | free text gives a word, and anything else gives none; the word is a space-free prefix of the text, cut at the first space |
| Helpers.FirstWordOf | synapse_slackbot/app/helpers.py:25-30 | for space-joined non-empty words, the first word is the first of them |
| Helpers.WordAfter | synapse_slackbot/app/helpers.py:33-40 | a word is found exactly when the params are text and the given word occurs before the last whitespace token; the result is the token after its first occurrence |
| Helpers.WordAfterOf | synapse_slackbot/app/helpers.py:33-40 | for space-joined words, the word after the first occurrence of `ws[i]` is `ws[i+1]` |
| Helpers.WordAfterAt | synapse_slackbot/app/helpers.py:33-40 | when token i is the first occurrence of w and not the last token, the word after w is token i+1 |
| Helpers.WordAfterNone | synapse_slackbot/app/helpers.py:33-40 | a word that does not occur before the last token gives `None` |
| Helpers.SecondsOf | synapse_slackbot/app/helpers.py:45 | cutting the last three digits of a timestamp of four or more digits is division by 1000; below 1000 nothing is left |
| Helpers.TimestampToString | synapse_slackbot/app/helpers.py:43-47 | fails exactly when the timestamp is below 1000 (the cut leaves an empty string); otherwise it is the calendar text of the timestamp divided by 1000 |
| Helpers.StringDateToInts | synapse_slackbot/app/helpers.py:50-56 | gives a triple exactly when the date splits on `/` into three integer strings, and the triple is their values; there is no range check |
| Helpers.StringDateRoundTrip | synapse_slackbot/app/helpers.py:50-56 | `m/d/y` written from three numbers parses back to those numbers |
| Helpers.StringDateWrongCount | synapse_slackbot/app/helpers.py:50-56 | a date without exactly two `/` gives no triple |
| Helpers.Fenced | synapse_slackbot/app/helpers.py:59-89 | a summary starts and ends with the three-backtick fence |
| Helpers.FencedLines | synapse_slackbot/app/helpers.py:59-89 | between the fences, the summary's lines are its fields in order, each ended by `\n` |
| Helpers.UserSummary | synapse_slackbot/app/helpers.py:59-65 | fails exactly when the user has no legal name; otherwise it fences user id, name and permissions, in that order |
| Helpers.NodeSummary | synapse_slackbot/app/helpers.py:68-76 | the summary is fenced, and for fields without a newline it splits back into the lines `node id:`, `nickname:`, `type:` and `permissions:` with those fields, in that order |
| Helpers.TransactionSummary | synapse_slackbot/app/helpers.py:78-89 | succeeds exactly when the amount has a `.`, the receiver has a name and both timestamps are at least 1000; an amount without `.` raises the IndexError of `format_currency`; on success the reply is the fenced block of the eight labelled lines (id, formatted amount, from and to node, first recipient name, status, creation and processing dates from the calendar of the timestamp's seconds) |
| Helpers.RecurringSummary | synapse_slackbot/app/commands.py:192-199 | succeeds exactly when the amount has a `.`, and otherwise raises the IndexError of `format_currency`; on success the fenced block of the formatted amount, the two node ids and `periodicity: every <n> days` |
| Helpers.Warning | synapse_slackbot/app/helpers.py:92-106 | every warning is its header followed by exactly the keyword's `example` entry of the command table, which starts with `@synapse ` and the keyword |
| Helpers.RegistrationWarning | synapse_slackbot/app/helpers.py:92-96 | the register-first header followed by exactly the `register` example of the command table |
| Helpers.BaseDocWarning | synapse_slackbot/app/helpers.py:98-101 | the add-address-first header followed by exactly the `add_address` example |
| Helpers.InvalidParamsWarning | synapse_slackbot/app/helpers.py:103-106 | the try-again header followed by exactly the given command's example |
| Hyperlinks.MatchAt | synapse_slackbot/app/synapse_bot.py:143-148 | a match found at a position starts there and fits the pattern `<tag…\|display>` |
| Hyperlinks.MatchAtComplete | synapse_slackbot/app/synapse_bot.py:143-148 | every match of the pattern at a position is found there, and the one found is the greedy one: it ends no earlier than any other match there, and its group starts no earlier |
| Hyperlinks.Search | synapse_slackbot/app/synapse_bot.py:144-145 | `re.search` finds the leftmost position where `MatchAt` succeeds: none before it does, and `None` means none does |
| Hyperlinks.SearchComplete | synapse_slackbot/app/synapse_bot.py:144-145 | wherever the pattern matches from the search position on, the search finds a match there or earlier, so `None` means the pattern matches nowhere |
| Hyperlinks.MatchHasBar | synapse_slackbot/app/synapse_bot.py:143 | a match needs a `\|` in the text |
| Hyperlinks.NoBarNoMatch | synapse_slackbot/app/synapse_bot.py:136-153 | a text without `\|` has no link to find |
| Hyperlinks.PurgeWithoutBar | synapse_slackbot/app/synapse_bot.py:136-153 | a text without `\|` comes back unchanged |
| Hyperlinks.PurgeWithoutOpen | synapse_slackbot/app/synapse_bot.py:136-153 | a text without `<` comes back unchanged |
| Hyperlinks.LoneLinkMatch | synapse_slackbot/app/synapse_bot.py:143-146 | the search finds a lone link token where it starts, with its display text |
| Hyperlinks.LinkSub | synapse_slackbot/app/synapse_bot.py:147 | substituting a lone link replaces exactly that token |
| Hyperlinks.SubAll | synapse_slackbot/app/synapse_bot.py:147 | with no match from the position on, the rest of the text is returned as it is; otherwise the result starts with the text up to the leftmost match followed by the replacement |
| Hyperlinks.PurgeHyperlinks | synapse_slackbot/app/synapse_bot.py:136-153 | a text in which neither a `mailto` nor a `tel` link is found comes back unchanged |
| Hyperlinks.SubNone | synapse_slackbot/app/synapse_bot.py:147 | with no match left, `re.sub` leaves the text as it is |
| Hyperlinks.PurgeLoneMail | synapse_slackbot/app/synapse_bot.py:142-147 | a lone wrapped e-mail becomes its display text, with the rest of the text unchanged |
| Hyperlinks.PurgeMailOnly | synapse_slackbot/app/synapse_bot.py:142-147 | `<mailto:a\|b>` alone becomes `b` |
| Hyperlinks.PurgeMailThenTel | synapse_slackbot/app/synapse_bot.py:142-153 | a wrapped e-mail and a wrapped phone number each become their own display text |
| Hyperlinks.PurgeTwoMails | synapse_slackbot/app/synapse_bot.py:142-147 | with two wrapped e-mails, both become the FIRST one's display text |
| Parser.WithoutFirstWord | synapse_slackbot/app/synapse_bot.py:121-126 | gives `None` exactly when the text has no space |
| Parser.WithoutFirstWordOf | synapse_slackbot/app/synapse_bot.py:121-126 | dropping the first word of `first + " " + tail` gives the tail |
| Parser.SplitCommand | synapse_slackbot/app/synapse_bot.py:105-113 | fails exactly when the text has no space; the keyword is lower-case and holds no space |
| Parser.SplitCommandOf | synapse_slackbot/app/synapse_bot.py:105-113 | `mention keyword rest` splits into the lower-cased keyword and the lower-cased rest |
| Parser.ParamsOf | synapse_slackbot/app/synapse_bot.py:112-118 | text without `\|` is free text; text with `\|` becomes a field map exactly when `params_string_to_dict` succeeds, and then the field map is the dictionary it returns |
| Parser.KeywordAndParams | synapse_slackbot/app/synapse_bot.py:105-119 | gives `(None, None)` exactly when the text has no space |
| Parser.KeywordOnly | synapse_slackbot/app/synapse_bot.py:105-119 | `mention keyword` parses to the lower-cased keyword with no params, in both bots |
| Parser.LegacyKeywordAndParams | app/bot.py:147-161 | the earlier parser also gives `(None, None)` exactly when the text has no space |
| Parser.Field | synapse_slackbot/app/synapse_bot.py:130 | a stripped segment splits into one piece, or into two exactly when it holds a space |
| Parser.FieldOf | synapse_slackbot/app/synapse_bot.py:130 | `name value` splits into the name and the unstripped value |
| Parser.Good | synapse_slackbot/app/synapse_bot.py:131-133 | the fields a full pass would keep are all `[name, value]` pairs |
| Parser.RemoveFirst | synapse_slackbot/app/synapse_bot.py:133 | `list.remove` drops one element, the first equal one |
| Parser.ParamsStringToDict | synapse_slackbot/app/synapse_bot.py:128-134 | the loop as written, which removes from the list it iterates, agrees with the specification function on every input; `app/bot.py:170-176` is the same loop |
| Parser.FieldsOutcomeShape | synapse_slackbot/app/synapse_bot.py:128-134 | `dict()` fails exactly when two malformed segments are adjacent; otherwise the map is built from the well-formed segments |
| Parser.ParamsStringToDictSpec | synapse_slackbot/app/synapse_bot.py:128-134 | gives no dictionary exactly when two malformed segments are adjacent, and otherwise the map built from the well-formed segments |
| Parser.CleanIffNoAdjacent | synapse_slackbot/app/synapse_bot.py:131-134 | the loop leaves no malformed field behind exactly when no malformed segment follows another |
| Parser.BuildMapKeys | synapse_slackbot/app/synapse_bot.py:134 | the map's names are exactly the names of the fields |
| Parser.BuildMapLast | synapse_slackbot/app/synapse_bot.py:134 | for a duplicated name the later field's value wins |
| Parser.TwoBareSegments | synapse_slackbot/app/synapse_bot.py:128-134 | two space-free segments make `dict()` fail |
| Parser.BareSegmentsFail | synapse_slackbot/app/synapse_bot.py:112-118 | two space-free segments make both bots' parsers fail on the dictionary |
| Parser.LoneEmail | synapse_slackbot/app/synapse_bot.py:112-116 | a lone wrapped e-mail is un-wrapped before the `\|` test, so it is free text; the earlier bot, which does not un-wrap, fails on the dictionary |
| Parser.LoneLink | synapse_slackbot/app/synapse_bot.py:112-116 | the same for any tag that `purge_hyperlinks` un-wraps |
| Commands.LookupUser | synapse_slackbot/app/commands.py:108-113 | the lookup finds no user exactly when the Slack id has no local row |
| Commands.Whoami | synapse_slackbot/app/commands.py:11-16 | an unregistered user gets the registration warning and no remote call; otherwise the one remote call is the user lookup; a found user gets the summary of the provider's user, or the exception its rendering raises; a failed lookup replies with the provider error |
| Commands.VerifyNode | synapse_slackbot/app/commands.py:19-31 | gated on registration; a registered user whose text lacks the node id or either amount gets the `verify` format warning after the lookup alone; otherwise the node named by the first word is fetched and verified with the next two words, only after the node fetch; a failed lookup replies with the provider error |
| Commands.VerifyWith | synapse_slackbot/app/commands.py:29-31 | fetches the node, then verifies micro-deposits; success means both calls ran and the reply starts `*Node verified.*`; a failed node fetch or verification replies with that provider error, and a verified node replies `*Node verified.*` and its summary on a new line |
| Commands.VerifyWithOf | synapse_slackbot/app/commands.py:29-31 | the calls are the node fetch and then the verification with the two amounts, and success renders the node |
| Commands.VerifyNodeOf | synapse_slackbot/app/commands.py:24-31 | `id amount1 amount2` reaches the provider with those three words |
| Commands.VerifyNodeWith | synapse_slackbot/app/commands.py:24-31 | with all three words present the reply is that of the verification with them |
| Commands.VerifyParse | synapse_slackbot/app/commands.py:24-26 | id is the first word, amount1 the word after it, amount2 the word after that |
| Commands.VerifyRepeatedId | synapse_slackbot/app/commands.py:24-26 | when the second word repeats the id, `word_after` finds the id's first occurrence again, so both amounts passed to the provider are the id |
| Commands.VerifyOneWord | synapse_slackbot/app/commands.py:24-28 | a single word gets the verify format warning after the user lookup alone |
| Commands.ListNodes | synapse_slackbot/app/commands.py:34-43 | gated on registration; its second call fetches all nodes; a failed lookup or node listing replies with that provider error; an Ok text is `*No nodes found for user.*` for no nodes and otherwise the node summaries joined by newlines |
| Commands.ListNodesShowsAll | synapse_slackbot/app/commands.py:39-41 | with nodes found, the reply holds every node's summary |
| Commands.Comprehension | synapse_slackbot/app/commands.py:57 | a list comprehension succeeds with one result per element, in order, exactly when every element succeeds; otherwise it raises the exception of the FIRST failing element |
| Commands.TransactionSummaries | synapse_slackbot/app/commands.py:57 | one summary per transaction, in order, or the exception of the first transaction whose summary fails |
| Commands.ListTransactions | synapse_slackbot/app/commands.py:46-59 | gated on registration; a registered user with no word after `from` gets the `list_transactions` format warning after the lookup alone; the node named after `from` is fetched exactly when the user is found and such a word exists, and the third call lists its transactions; a successful three-call reply is `*No transactions found for node.*` for an empty list and otherwise the summaries joined by newlines; a failed lookup replies with the provider error, and a reply after exactly two calls is a provider error |
| Commands.ListTransactionsShowsAll | synapse_slackbot/app/commands.py:46-59 | when the `from` node has transactions and every summary renders, the `list_transactions` reply succeeds and holds each transaction's summary |
| Commands.ListTransactionsFrom | synapse_slackbot/app/commands.py:51-54 | the node fetched is the word after `from` |
| Commands.ListTransactionsWithoutFrom | synapse_slackbot/app/commands.py:51-53 | without a word after `from` (no text, a field map, or words where `from` is missing or last), the reply is the format warning after the lookup alone |
| Commands.SendSpec | synapse_slackbot/app/commands.py:62-92 | gated on registration; a registered user whose text lacks the amount, the word after `from` or the word after `to` gets the `send` format warning after the lookup alone, with no row; a recurring row is recorded only when the text contains `every`, and then no transaction is created; a failed lookup replies with the provider error and records no row |
| Commands.SendTransaction | synapse_slackbot/app/commands.py:81-92 | fetches the `from` node first, then creates the transaction from it; no row is recorded; a failed fetch or creation replies with that provider error; a created transaction replies `*Transaction created.*` and its summary on a new line, or the summary's exception |
| Commands.SendArgs | synapse_slackbot/app/commands.py:82-90 | the transaction is ACH-US in USD from 127.0.0.1 with the given amount and receiver; `process_in` is set exactly when the text contains `in`, as the word after `in` |
| Commands.SendParse | synapse_slackbot/app/commands.py:67-69 | amount is the first word, and the ids are the words after `from` and `to` |
| Commands.SendWith | synapse_slackbot/app/commands.py:67-80 | with all three words present, `every` leads to the recurring record and its absence to the transaction |
| Commands.SendTransactionOf | synapse_slackbot/app/commands.py:81-91 | the calls are the `from` node fetch and then the creation with the built arguments |
| Commands.SendRecurring | synapse_slackbot/app/commands.py:72-80 | `every p` records exactly one row with periodicity p and makes no call beyond the lookup; when the row's summary renders, the reply is `*Recurring transaction created.*` and that summary on a new line |
| Commands.SendEveryInsideWord | synapse_slackbot/app/commands.py:72-73 | `every` inside another word (`everything`) also takes the recurring path, as the substring test does |
| Commands.SendCreates | synapse_slackbot/app/commands.py:81-91 | without `every`, no row is recorded and the transaction is created with the built arguments; a failed creation replies with its provider error, and a created transaction whose summary renders replies `*Transaction created.*` and the summary on a new line |
| Commands.SendInInsideWord | synapse_slackbot/app/commands.py:89-90 | `in` inside another word sets `process_in`, to `None` when no token `in` exists |
| Commands.Store.constructor | synapse_slackbot/app/commands.py:95-103 | starts from the given users and recurring rows |
| Commands.Store.CreateRecurringTransaction | synapse_slackbot/app/commands.py:95-103 | appends one row copied from its arguments and leaves the users and the earlier rows unchanged |
| Commands.Store.Send | synapse_slackbot/app/commands.py:62-92 | replies as the specification says, appends exactly the rows it says, and leaves the users unchanged |
| Dispatcher.Respond | synapse_slackbot/app/synapse_bot.py:73-87 | a reply is posted as it is, a provider error behind the HTTP-error header, and any other exception behind the generic header, its type and `: ` followed by its detail |
| Dispatcher.Help | synapse_slackbot/app/synapse_bot.py:16-21 | the help text holds the block of every key of the command table |
| Dispatcher.HelpShowsEvery | synapse_slackbot/app/synapse_bot.py:16-21 | the help text holds the block of every key |
| Dispatcher.CommandPosts | synapse_slackbot/app/synapse_bot.py:40-54 | a command makes one or two posts, all to the event's channel, and the first of two is the acknowledgement; a crash posts nothing |
| Dispatcher.CommandPostsCases | synapse_slackbot/app/synapse_bot.py:40-54 | `help` gets the help text, a table key gets the acknowledgement and then its handler's translated reply, and a text without a keyword or with an unknown one gets the fallback text |
| Dispatcher.UploadPosts | synapse_slackbot/app/synapse_bot.py:56-71 | an upload makes two posts (the acknowledgement first) exactly when its comment contains `add_photo_id`, and otherwise posts the fallback text once; never crashes |
| Dispatcher.UploadBeforeCommand | synapse_slackbot/app/synapse_bot.py:34-38 | an event that is an upload is handled as an upload only, whatever the parser says |
| Dispatcher.EventPosts | synapse_slackbot/app/synapse_bot.py:32-38 | only a command that is not an upload can crash, and then posts nothing; an event posts nothing exactly when it crashes or is neither an upload nor a command; every post goes to the event's channel |
| Dispatcher.Batch | synapse_slackbot/app/synapse_bot.py:32-38 | the batch crashes exactly when one of its events crashes |
| Dispatcher.BatchInOrder | synapse_slackbot/app/synapse_bot.py:32-38 | without a crash, the batch posts each event's posts, in event order |
| Dispatcher.BatchStopsAt | synapse_slackbot/app/synapse_bot.py:32-38 | the first event that crashes ends the batch: the events before it are posted, and nothing after it |
| Dispatcher.SynapseBot.constructor | synapse_slackbot/app/synapse_bot.py:11-14 | the mention is `<@id>`, with the current parser and an empty outbox |
| Dispatcher.SynapseBot.PostToChannel | synapse_slackbot/app/synapse_bot.py:23-30 | appends exactly one post to the outbox |
| Dispatcher.SynapseBot.ExecuteCommand | synapse_slackbot/app/synapse_bot.py:73-103 | posts the acknowledgement `Processing command...` to the channel before running the handler, and returns its translated reply |
| Dispatcher.SynapseBot.HandleCommand | synapse_slackbot/app/synapse_bot.py:40-54 | appends exactly the command's posts and crashes exactly when it says |
| Dispatcher.SynapseBot.HandleDocUpload | synapse_slackbot/app/synapse_bot.py:56-71 | appends exactly the upload's posts |
| Dispatcher.SynapseBot.HandleEvent | synapse_slackbot/app/synapse_bot.py:34-38 | appends exactly the event's posts, upload first |
| Dispatcher.SynapseBot.ParseSlackOutput | synapse_slackbot/app/synapse_bot.py:32-38 | appends exactly the batch's posts, in order, and stops at the first crash |
| LegacyBot.KeysHandled | app/bot.py:14-52 | a keyword has an entry exactly when it is one of the seven keys, and the entry is listed under it |
| LegacyBot.KeysDistinct | app/bot.py:14-52 | exactly seven distinct keys, and `help` is not one of them |
| LegacyBot.KeyOfHandler | app/bot.py:14-52 | a handler's key leads back to that handler |
| LegacyBot.ExampleStartsWithKey | app/bot.py:17-48 | every example starts with `@synapse ` followed by its own key |
| LegacyBot.HelpShowsEvery | app/bot.py:59-66 | the help text holds the block of every handler of the table |
| LegacyBot.Help | app/bot.py:59-66 | the help text holds the block of every handler of the table |
| LegacyBot.RegistrationPrompt | app/bot.py:140-143 | the prompt contains `/register/` and the Slack id, and ends with the id |
| LegacyBot.Execute | app/bot.py:100-121 | the acknowledgement comes first and every post goes to the channel; the lookup's failure is the only way to give no response; an unregistered user gets the registration prompt; a registered user's handler gets the provider's user |
| LegacyBot.RegisteredPosts | app/bot.py:100-121 | for a found user, the posts are the acknowledgement, the `synapse_user:` line, the `response:` line and the final reply, in that order |
| LegacyBot.CommandPosts | app/bot.py:83-98 | every post goes to the event's channel, and a command that does not crash posts something |
| LegacyBot.UnregisteredPosts | app/bot.py:105-107 | an unregistered user gets the acknowledgement and the prompt, whatever the handlers do |
| LegacyBot.ExecuteUnregistered | app/bot.py:102-105 | for an unregistered user no handler runs and the response is the prompt |
| LegacyBot.LookupFailureEscapes | app/bot.py:102-103 | a provider error during the lookup escapes after the acknowledgement, and nothing else is posted |
| LegacyBot.NoHandlerForOthers | app/bot.py:87-97 | `help` and unknown keywords get one post, and reach no handler and no lookup |
| LegacyBot.BatchAt | app/bot.py:79-81 | an event that does not mention the bot is passed over, and one that does is handled |
| LegacyBot.Batch | app/bot.py:77-81 | the batch crashes exactly when one of its events mentions the bot and its command crashes |
| LegacyBot.BatchWithoutMention | app/bot.py:79-81 | a batch in which no event mentions the bot posts nothing |
| LegacyBot.BatchCompletes | app/bot.py:77-81 | with every user registered and found and no dictionary failure, the batch never stops early |
| LegacyBot.Bot.constructor | app/bot.py:54-57 | the mention is `<@id>`, with the earlier parser and an empty outbox |
| LegacyBot.Bot.PostToChannel | app/bot.py:68-75 | appends exactly one post to the outbox |
| LegacyBot.Bot.ExecuteCommand | app/bot.py:100-121 | appends exactly the posts of `Execute` and returns its response |
| LegacyBot.Bot.HandleCommand | app/bot.py:83-98 | appends exactly the command's posts and crashes exactly when it says |
| LegacyBot.Bot.ParseSlackOutput | app/bot.py:77-81 | appends the posts of every mentioning event, in order, and stops at the first crash |
| RootBot.HandlerOf | bot.py:13-17 | exactly the keys `list`, `send` and `whoami` have an entry |
| RootBot.HelpTextLists | bot.py:28-32 | the help text is `Available commands:\n` followed by the keys, which split back out line by line |
| RootBot.HelpListsKeys | bot.py:28-32 | `help` lists `list`, `send` and `whoami`, one per line |
| RootBot.Translate | bot.py:36-44 | a reply is passed on, a provider error shows its message behind the HTTP-error header, any other exception shows only its type |
| RootBot.TranslateHidesDetail | bot.py:41-44 | two exceptions of the same type read the same |
| RootBot.Keyword | bot.py:27 | the keyword is a space-free prefix of the command as typed |
| RootBot.Reply | bot.py:26-44 | `help` gets the help text, a key gets its handler's translated reply on the whole command, anything else the default text |
| RootBot.UpperCaseUnknown | bot.py:27-28 | `HELP` is not lower-cased, so it gets the default text |
| RootBot.MentionBounds | bot.py:61 | the piece after the first mention lies within the text |
| RootBot.MentionBoundsClear | bot.py:61 | the piece starts right after a mention and holds no mention |
| RootBot.MentionText | bot.py:61 | `split(at_bot)[1]` never contains the mention: a second mention cuts it short |
| RootBot.MentionAtStart | bot.py:61 | a message that starts with the only mention yields the rest of the message |
| RootBot.CommandText | bot.py:61 | the command is lower-case and stripped at both ends |
| RootBot.FirstMention | bot.py:56-63 | `None` exactly when no event mentions the bot; otherwise the command and channel of the first event that does |
| RootBot.LaterEventsIgnored | bot.py:58-62 | events after the first mentioning one change nothing |
| RootBot.ParseSlackOutput | bot.py:50-63 | the loop returns what `FirstMention` says |
| RootBot.SlackClient.PostMessage | bot.py:46-47 | appends exactly one post |
| RootBot.HandleCommand | bot.py:20-47 | exactly one post, to the given channel, with the routed reply |
| RootSynapseBot.HandlerOf | synapse_bot.py:7-12 | exactly the keys `list`, `iam`, `send` and `whoami` have an entry |
| RootSynapseBot.HandlersDistinct | synapse_bot.py:7-12 | different keys lead to different handlers |
| RootSynapseBot.Keyword | synapse_bot.py:29 | the keyword is lower-case, space-free and a prefix of the lower-cased command |
| RootSynapseBot.KeywordIgnoresCase | synapse_bot.py:29 | a command and its lower-cased form give the same keyword |
| RootSynapseBot.Reply | synapse_bot.py:28-46 | `help` (in any case) gets the help text, a key gets its handler's translated reply on the command as typed, anything else the default text |
| RootSynapseBot.UpperCaseHelp | synapse_bot.py:29-34 | `HELP` gets the help text here, and the default text in `bot.py` |
| RootSynapseBot.HelpListsKeys | synapse_bot.py:30-34 | `help` lists the four keys, one per line |
| RootSynapseBot.SynapseBot.constructor | synapse_bot.py:14-16 | keeps the client and the bot id |
| RootSynapseBot.SynapseBot.AtBot | synapse_bot.py:18-19 | the mention is `<@id>` |
| RootSynapseBot.SynapseBot.HandleCommand | synapse_bot.py:21-49 | exactly one post, to the given channel, with the routed reply |
| RootSynapseBot.SynapseBot.ParseSlackOutput | synapse_bot.py:51-65 | the command and channel of the first event that mentions this bot, or `None` |
| RootCommands.WordAfter | commands.py:110-114 | fails exactly when the word is absent or last: a ValueError when absent, an IndexError when last |
| RootCommands.WordAfterAgrees | commands.py:110-114 | it succeeds exactly when the later `None`-returning helper finds a word, and then with the same word |
| RootCommands.WordAfterOf | commands.py:113 | for space-joined words, the word after `ws[i]` is `ws[i+1]` |
| RootCommands.WordAfterAbsent | commands.py:113 | an absent word raises a ValueError |
| RootCommands.WordAfterLast | commands.py:114 | a word that only occurs last raises an IndexError |
| RootCommands.WhoAmI | commands.py:25-27 | fails exactly when the user has no legal name; otherwise starts `You are ` and the first name |
| RootCommands.ListNodes | commands.py:40-47 | one call for all nodes; fails exactly when it fails; otherwise the node lines joined by `\n` |
| RootCommands.ListNodesLines | commands.py:40-47 | the reply splits back into exactly one line per node |
| RootCommands.NodeLine | commands.py:43-46 | a node's line starts with its type, ` - `, its nickname and ` (node_id: `, and ends with its id and `)` |
| RootCommands.ListTransactions | commands.py:50-62 | fetches the `from` node first; succeeds, with an empty text, exactly when the node has no transactions, since a non-empty list reaches the undefined bare name `format_currency` |
| RootCommands.ListResource | commands.py:30-37 | a remote call happens exactly when the word after `list` is `nodes`; a failing `word_after` raises |
| RootCommands.ListResourceRoutes | commands.py:32-37 | `nodes` goes to `list_nodes`, and any other word except `transactions` gives `None` with no call |
| RootCommands.ListTransactionsUnreachable | commands.py:35-37 | `transactions` raises a NameError, since bare `word_after` is not defined, and makes no call |
| RootCommands.SendArgsOf | commands.py:69-77 | succeeds exactly when words follow `send` and `to`; amount and receiver are those words; `process_in` is set exactly when the command contains `on`, and read after `in` |
| RootCommands.Created | commands.py:82-93 | succeeds exactly when the amount has a `.`, both parties have names and the process date is at least 1000; an amount without `.` raises the IndexError of `format_currency`; the text is `Created $<amount> transaction from <sender>'s <type> node to <receiver>'s <type> node.`, then `Scheduled for <date>.` and `Current status: <note>.` on their own lines |
| RootCommands.Send | commands.py:65-93 | no call unless a word follows `from`; the first call fetches that node; a second call is the creation with the built arguments |
| RootCommands.SendHidesCreateError | commands.py:78-85 | a failed creation is swallowed and surfaces as the unbound `transaction` error |
| RootCommands.SendOnWithoutIn | commands.py:76-77 | `on` without a token `in` raises after the node fetch, and nothing is created |
| RootCommands.SendCreates | commands.py:67-93 | with all words present, the creation gets the amount, receiver, SYNAPSE-US and USD; a created transaction returns the `Created` text, or raises its exception |
| RegisterForm.JsLength | synapse_slackbot/static/register.js:211 | a string's JavaScript length lies between its code-point count and twice that |
| RegisterForm.JsLengthBmp | synapse_slackbot/static/register.js:211 | for characters of the basic plane it is the code-point count |
| RegisterForm.OneWordIffNoSpace | synapse_slackbot/static/register.js:207 | `split(' ').length < 2` exactly when there is no space |
| RegisterForm.NameNeedsOnlyASpace | synapse_slackbot/static/register.js:207 | the name rule fails exactly when the name has no space |
| RegisterForm.EmailShapeOf | synapse_slackbot/static/register.js:215 | `u@h.t` matches `\S+@\S+\.\S+` |
| RegisterForm.EmailNeedsAt | synapse_slackbot/static/register.js:215 | no `@`, no match |
| RegisterForm.EmailNeedsDot | synapse_slackbot/static/register.js:215 | no `.`, no match |
| RegisterForm.EmailSpaceBeforeDot | synapse_slackbot/static/register.js:215 | a space before the only dot defeats the match |
| RegisterForm.AccountDigits | synapse_slackbot/static/register.js:286 | an all-digit account number is flagged exactly when its value is below 6 |
| RegisterForm.AccountNotLength | synapse_slackbot/static/register.js:286 | the rule compares values, not lengths: `7` passes and `00005` is flagged |
| RegisterForm.AccountNaNPasses | synapse_slackbot/static/register.js:286 | a non-number passes, while an empty one is 0 and flagged |
| RegisterForm.Failing | synapse_slackbot/static/register.js:205-243 | no errors exactly when no rule fails |
| RegisterForm.FailingMessages | synapse_slackbot/static/register.js:205-243 | a message is reported exactly when its rule fails |
| RegisterForm.Tab0Rules | synapse_slackbot/static/register.js:207-238 | the first tab has eight rules |
| RegisterForm.Tab1Rules | synapse_slackbot/static/register.js:258-265 | the second tab has two rules |
| RegisterForm.Tab2Rules | synapse_slackbot/static/register.js:286-293 | the third tab has two rules |
| RegisterForm.Tab2Passes | synapse_slackbot/static/register.js:286-293 | the third tab passes exactly when the account is not flagged and the routing number is nine long |
| RegisterForm.Tab0Validations | synapse_slackbot/static/register.js:189-244 | the messages of the failed first-tab rules, in rule order |
| RegisterForm.Tab1Validations | synapse_slackbot/static/register.js:246-272 | the messages of the failed second-tab rules, in rule order |
| RegisterForm.Tab2Validations | synapse_slackbot/static/register.js:274-300 | the messages of the failed third-tab rules, in rule order |
| RegisterForm.AllFilled | synapse_slackbot/static/register.js:22-28 | true exactly when no input is empty |
| RegisterForm.NextTab | synapse_slackbot/static/register.js:73-81 | stays in 0..2; moves one forward below 2 and stays at 2 |
| RegisterForm.BackTab | synapse_slackbot/static/register.js:43-55 | stays in 0..2; moves one back above 0 and stays at 0 |
| RegisterForm.BackUndoesNext | synapse_slackbot/static/register.js:43-81 | from tab 0 or 1, back undoes next |
| RegisterForm.Wizard.constructor | synapse_slackbot/static/register.js:6 | starts at tab 0 |
| RegisterForm.Wizard.CheckValidationErrors | synapse_slackbot/static/register.js:177-187 | the errors of the current tab's rules |
| RegisterForm.Wizard.Back | synapse_slackbot/static/register.js:38-58 | moves back one tab (never below 0), disables back on the first tab and re-enables next when leaving the last |
| RegisterForm.Wizard.Next | synapse_slackbot/static/register.js:60-83 | with errors the tab does not move; without them it moves forward one tab, enabling back and disabling next |
| RegisterForm.Wizard.Submit | synapse_slackbot/static/register.js:115-123 | sends exactly when the current tab has no failing rule |
| RegisterForm.Wizard.InputsChanged | synapse_slackbot/static/register.js:20-35 | next is disabled exactly when some input is empty; the tab does not change |
| RegisterForm.Wizard.ClickBack | synapse_slackbot/static/register.js:20-58 | a click on back inside the form: the tab steps back as `Back` says, and then next is disabled exactly when some input of the now visible tab is empty |
| RegisterForm.Wizard.ClickNext | synapse_slackbot/static/register.js:20-83 | a click on next inside the form: the tab moves as `Next` says, and then next is disabled exactly when some input of the now visible tab is empty |
| TemplateTabs.TabWizard.constructor | synapse_slackbot/templates/register.js:2 | starts at tab 0 |
| TemplateTabs.TabWizard.Back | synapse_slackbot/templates/register.js:9-15 | moves back only above tab 0 |
| TemplateTabs.TabWizard.Next | synapse_slackbot/templates/register.js:17-23 | moves forward only below tab 2 |
| TemplateTabs.NextThenBack | synapse_slackbot/templates/register.js:9-23 | from tab 0 or 1, next then back returns to the starting tab |
| TemplateTabs.Clicks | synapse_slackbot/templates/register.js:9-23 | any run of clicks stays within tabs 0..2 |
| TemplateTabs.TwoClicksReachEnds | synapse_slackbot/templates/register.js:9-23 | two nexts reach the last tab and two backs the first, from anywhere |
| TemplateTabs.Replay | synapse_slackbot/templates/register.js:9-23 | clicking the buttons in order ends where `Clicks` says |

## Left out

- The Slack RTM event loops, the Flask registration routes, `time.sleep` and the background thread: I/O and concurrency. A batch of events is a parameter.
- The payments provider (`SynapseUser.by_id`, `Node.by_id`, `Node.all`, `Transaction.create`, `verify_microdeposits`): a foreign network API. Each is an oracle returning a record or an error.
- The database: the users table is a map from Slack id to provider id, and the recurring-transaction table is a sequence of rows in class `Commands.Store`. `db.session.commit` is not modelled.
- Configuration and client files, environment variables, `traceback.print_tb` and `print` logging: no behaviour of the front end depends on them.
- The handlers the command tables name but this model does not define (`add_address`, `add_node`, `add_photo_id`, `add_ssn` and `register` of the current bot; the handlers of `app/bot.py`, whose `commands` module is not part of this model; `iam` of `synapse_bot.py`): handlers are an oracle from keyword, user and params to an outcome. A handler that returns `None` instead of a text is not representable.
- Import failures: synapse_slackbot/app/commands_directory.py:1-3 imports `add_base_doc`, `add_node`, `add_physical_doc`, `add_virtual_doc` and `register`, none of which synapse_slackbot/app/commands.py defines. So importing the command table raises ImportError, and so do synapse_slackbot/app/helpers.py:4 and synapse_slackbot/app/synapse_bot.py:5, which import it. The model assumes the imports succeed and models the table as written.
- Import failures of the first bots: bot.py:5 imports `list_resource`, `send` and `who_am_i`, and synapse_bot.py:3 also imports `i_am`, from `commands.py`, which holds the first three only as static methods of class `Commands` (commands.py:22-96) and defines no `i_am` at all. Both scripts raise ImportError on start. The two bot modules take the handlers as a parameter; `RootCommands` models the static methods of class `Commands` on their own.
- Python 3's `str(float)` inside `format_currency`: amounts are decimal strings. An integer amount has no `.` and so raises, as the code does.
- The calendar formatting of `timestamp_to_string`, which depends on the local timezone: a parameter. Only the cut of the last three digits is modelled.
- The type name `sys.exc_info()[0]` prints: an abstract text per exception class.
- Slack's message text is taken as given; Unicode case folding beyond `A`..`Z` is not modelled.
- Text.ParseInt: reads optional sign and ASCII digits between optional whitespace; Python's `int()` also accepts `_` between digits and non-ASCII decimal digits, which the model rejects.
- `synapse_slackbot/app/commands.py` uses `COMMANDS` without importing it. The model reads the table of `commands_directory.py`, as `helpers.py` does.
- Parser.FieldOf: the value after the first space is not stripped, so `name  value` keeps a leading space, as the code does.
- CommandsDirectory.Example: the field grammar of the `register` and `add_address` examples and the `from` token of the `list_transactions` example are not proved; the usage texts are literal data.
- LegacyBot.HelpShowsEvery: proved for any keys of the table rather than by unfolding the literal seven-key table; the same holds for `Dispatcher.HelpShowsEvery` over the ten keys.
- RegisterForm.AccountDigits: JavaScript's `Number` is modelled for decimal literals, `Infinity` and the empty string; exponent, hexadecimal, octal and binary forms are treated as not a number.
- RegisterForm.Tab1Rules: the selector `input[name=govt_id` lacks its closing `]`; the model reads the govt_id field as if the selector were well formed.
- The page's DOM, alerts, `FileReader` and ajax submission: the wizard keeps the tab index, the button flags and the validation errors.
- The page's form submission (`bindFormSubmit`, synapse_slackbot/static/register.js:115-145) sends the form by ajax: network I/O. The model stops at the decision to send, `Wizard.Submit`.
- `verify_registration` of `app/bot.py` (lines 127-131) is a bot method that nothing calls; it is not modelled.
- RegisterForm.Wizard.Back: whether the back and next buttons sit inside the form depends on a page template that is not part of this model. A click is modelled both ways: `Back`/`Next` alone (buttons outside the form) and `ClickBack`/`ClickNext` (the click bubbles to the form's `keyup click change` handler). A click on a disabled button, which fires no handler, is not modelled.
- RegisterForm.Wizard.Next: the same two readings of a click as for `RegisterForm.Wizard.Back`.
- Hyperlinks.PurgeHyperlinks: display texts holding a backslash are excluded (`LinkText`), because `re.sub` reads escapes and group references in its replacement text and these are not modelled: `<mailto:x|a\1b>` gives `aa\1bb`, and a display text with `\q` raises `re.error`.
- Hyperlinks.LinkSub: `SubAll` inserts the replacement literally, which is what `re.sub` does only for a replacement without a backslash; the callers pass display texts, which `LinkText` keeps free of backslashes.
- Hyperlinks.PurgeLoneMail: the same backslash restriction on display texts as for `Hyperlinks.PurgeHyperlinks`.
- Hyperlinks.PurgeMailOnly: the same backslash restriction on display texts as for `Hyperlinks.PurgeHyperlinks`.
- Hyperlinks.PurgeMailThenTel: the same backslash restriction on display texts as for `Hyperlinks.PurgeHyperlinks`.
- Hyperlinks.PurgeTwoMails: the same backslash restriction on display texts as for `Hyperlinks.PurgeHyperlinks`.
- Parser.LoneEmail: the same backslash restriction on display texts as for `Hyperlinks.PurgeHyperlinks`.
- Parser.LoneLink: the same backslash restriction on display texts as for `Hyperlinks.PurgeHyperlinks`.
- Commands.SendSpec: the model follows the `RecurringTransaction` class of synapse_slackbot/app/models.py:22-38, which has `from_node_id` and `to_node_id`. But synapse_slackbot/app/commands.py:7 imports the class of synapse_slackbot/models.py:27-39, which has neither column and whose `__init__` drops them. So the row is stored without the node ids, `recurring_transaction_summary` raises AttributeError at synapse_slackbot/app/commands.py:196, and the reply is the generic error text. The model does not capture this failure.
- Commands.Store.CreateRecurringTransaction: stores the node ids, which the imported `RecurringTransaction` class drops (see `Commands.SendSpec`).
- Helpers.RecurringSummary: renders the node ids of the row; with the imported class the `every` branch of `send` raises AttributeError here instead (see `Commands.SendSpec`).
