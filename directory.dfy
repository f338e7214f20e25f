/** The command table of the final bot: keyword to handler, usage example and description. */
module CommandsDirectory {
  import opened Wrappers
  import opened Text

  /** The handler functions the table points at. */
  datatype CommandFn =
    | AddBaseDoc | AddNode | AddPhysicalDoc | AddVirtualDoc | ListNodes
    | ListTransactions | Register | Send | VerifyNode | Whoami

  /** What the usage example of a handler's command says after `@synapse <keyword>`. */
  function Usage(h: CommandFn): string {
    match h
    case AddBaseDoc =>
      " street `[street address]` | city `[city]` | state `[state abbreviation]` | zip `[zip]` | dob `[mm/dd/yyyy]`"
    case AddNode =>
      " nickname `[nickname]` | account `[account number]` | routing `[routing number]` | type `[CHECKING / SAVINGS]`"
    case AddPhysicalDoc => ""
    case AddVirtualDoc => " `[last four digits of ssn]`"
    case ListNodes => ""
    case ListTransactions => " from `[id of sending node]`"
    case Register => " name `[first last]` | email `[email address]` | phone `[phone number]`"
    case Send =>
      " `[amount]` from `[id of sending node]` to `[id of receiving node]` *[optional]* in `[number]` days"
    case VerifyNode => " `[node id]` `[microdeposit amount 1]` `[microdeposit amount 2]`"
    case Whoami => ""
  }

  /** The description the table gives a handler's command. */
  function Description(h: CommandFn): string {
    match h
    case AddBaseDoc => "Provide the user's address:"
    case AddNode => "Associate a bank account with the user:"
    case AddPhysicalDoc => "Provide the user's photo ID by uploading a file with this comment"
    case AddVirtualDoc => "Provide the user's SSN:"
    case ListNodes => "List the bank accounts associated with the user:"
    case ListTransactions => "List the transactions sent from a specific node:"
    case Register => "Register a user with Synapse:"
    case Send => "Create a transaction to move funds from one node to another:"
    case VerifyNode => "Enable a node to send funds by verifying correct microdeposit amounts:"
    case Whoami => "Return basic information about the Synapse user:"
  }

  /** The keys of `COMMANDS`, in the order the table lists (and `help` iterates) them. */
  const KEYS: seq<string> := [
    "add_address", "add_node", "add_photo_id", "add_ssn", "list_nodes",
    "list_transactions", "register", "send", "verify", "whoami"
  ]

  /** The `function` entry of `COMMANDS[keyword]`, if the keyword is a key. */
  function HandlerOf(keyword: string): Option<CommandFn> {
    if keyword == "add_address" then Some(AddBaseDoc)
    else if keyword == "add_node" then Some(AddNode)
    else if keyword == "add_photo_id" then Some(AddPhysicalDoc)
    else if keyword == "add_ssn" then Some(AddVirtualDoc)
    else if keyword == "list_nodes" then Some(ListNodes)
    else if keyword == "list_transactions" then Some(ListTransactions)
    else if keyword == "register" then Some(Register)
    else if keyword == "send" then Some(Send)
    else if keyword == "verify" then Some(VerifyNode)
    else if keyword == "whoami" then Some(Whoami)
    else None
  }

  /** The key under which the table lists a handler. */
  function KeyOf(h: CommandFn): string {
    match h
    case AddBaseDoc => "add_address"
    case AddNode => "add_node"
    case AddPhysicalDoc => "add_photo_id"
    case AddVirtualDoc => "add_ssn"
    case ListNodes => "list_nodes"
    case ListTransactions => "list_transactions"
    case Register => "register"
    case Send => "send"
    case VerifyNode => "verify"
    case Whoami => "whoami"
  }

  /** `COMMANDS[keyword]['example']`: `@synapse`, the key, and the usage of its handler. */
  function Example(keyword: string): (r: string)
    requires keyword in KEYS
    ensures IsPrefix("@synapse " + keyword, r)
  {
    KeysHandled(keyword);
    var r := "@synapse " + keyword + Usage(HandlerOf(keyword).value);
    assert r[..|"@synapse " + keyword|] == "@synapse " + keyword;
    r
  }

  /** A keyword has an entry (`keyword in COMMANDS`) exactly when it is one of the listed keys. */
  lemma KeysHandled(keyword: string)
    ensures HandlerOf(keyword).Some? <==> keyword in KEYS
  {
  }

  /** The keys are listed once each, and `help` is not one of them. */
  lemma KeysDistinct()
    ensures forall i, j :: 0 <= i < j < |KEYS| ==> KEYS[i] != KEYS[j]
    ensures "help" !in KEYS
  {
  }

  /** Every handler is reached from exactly one key: the one listed for it. */
  lemma HandlerKey(keyword: string, h: CommandFn)
    ensures HandlerOf(keyword) == Some(h) <==> keyword == KeyOf(h)
  {
  }

  /** The example of a key is `@synapse`, the key, and the usage of its handler. */
  lemma ExampleOf(keyword: string, h: CommandFn)
    requires HandlerOf(keyword) == Some(h)
    ensures keyword in KEYS && Example(keyword) == "@synapse " + keyword + Usage(h)
  {
    KeysHandled(keyword);
  }
}
