/**
 * The values the chat front end passes around: Slack events, the posts it
 * makes, the parameters a handler receives, the records of the payments
 * provider it renders, and the outcome of running a handler.
 */
module Model {
  import opened Wrappers

  /** What a handler receives: nothing, free text, or a field map from the `name value | name value` grammar. */
  datatype Params = NoParams | FreeText(text: string) | FieldMap(fields: map<string, string>)

  /** The file part of an upload event: `file.initial_comment.comment` and `file.permalink`. */
  datatype Attachment = Attachment(initialComment: Option<string>, permalink: string)

  /** One event of a batch read from the Slack firehose; absent keys are `None`. */
  datatype Event = Event(text: Option<string>, user: string, channel: string, file: Option<Attachment>)

  /** One `chat.postMessage` call. */
  datatype Post = Post(channel: string, text: string)

  /** The Python exception classes the handlers can raise besides the provider's own error. */
  datatype ErrorKind = IndexError | ValueError | KeyError | NameError | UnboundLocalError | AttributeError

  /** `str(type(e))` for one of those classes. */
  function TypeText(k: ErrorKind): string {
    match k
    case IndexError => "<class 'IndexError'>"
    case ValueError => "<class 'ValueError'>"
    case KeyError => "<class 'KeyError'>"
    case NameError => "<class 'NameError'>"
    case UnboundLocalError => "<class 'UnboundLocalError'>"
    case AttributeError => "<class 'AttributeError'>"
  }

  /** An exception other than the provider's: its class and its message. */
  datatype Exception = Exception(kind: ErrorKind, detail: string)

  /** What running a handler comes to: a reply, a `SynapsePayError`, or any other exception. */
  datatype Outcome = Ok(text: string) | ProviderError(message: string) | OtherError(exception: Exception)

  /** A user of the payments provider, as far as the replies show it. */
  datatype User = User(id: string, legalNames: seq<string>, permission: string)

  /** A bank-account node of the payments provider. */
  datatype Node = Node(id: string, nickname: string, accountClass: string, permission: string, nodeType: string)

  /** A transaction of the payments provider; `amount` is the text `str()` gives for it. */
  datatype Transaction = Transaction(
    id: string, amount: string, nodeId: string, toId: string,
    toNames: seq<string>, toType: string, fromNames: seq<string>, fromType: string,
    statusNote: string, createdOn: nat, processOn: nat)

  /** A row of the local `recurring_transactions` table. */
  datatype RecurringTransaction = RecurringTransaction(
    amount: string, fromNodeId: string, toNodeId: string, periodicity: Option<string>, slackUserId: string)
}
