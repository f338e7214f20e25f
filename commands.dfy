/**
 * The handlers of `synapse_slackbot/app/commands.py`: each looks the Slack
 * user up in the local `users` table, checks its parameters, calls the
 * payments provider and renders a reply. The provider is a set of functions
 * given as a parameter; each call is recorded so that the properties can say
 * which calls a handler makes. `send` may add a row to the local
 * `recurring_transactions` table, held by the class `Store`.
 */
module Commands {
  import opened Wrappers
  import opened Text
  import opened Model
  import opened Helpers
  import Directory = CommandsDirectory

  /** The arguments of `Transaction.create` besides the sending node; `processIn` is `None` when the key is not set. */
  datatype TransactionArgs = TransactionArgs(
    amount: string, toId: string, toType: string, currency: string, ip: string,
    processIn: Option<Option<string>>)

  /**
   * The payments provider and the clock formatting the handlers use. A
   * `Failure` carries the message of a `SynapsePayError`.
   */
  datatype Services = Services(
    userById: string -> Result<User, string>,
    nodeById: (User, string) -> Result<Node, string>,
    verifyMicrodeposits: (Node, string, string) -> Result<Node, string>,
    allNodes: User -> Result<seq<Node>, string>,
    allTransactions: Node -> Result<seq<Transaction>, string>,
    createTransaction: (Node, TransactionArgs) -> Result<Transaction, string>,
    calendar: nat -> string)

  /** One call to the provider. */
  datatype Call =
    | GetUser(synapseUserId: string)
    | GetNode(nodeId: string)
    | VerifyMicrodeposits(nodeId: string, amount1: string, amount2: string)
    | AllNodes
    | AllTransactions(nodeId: string)
    | CreateTransaction(fromNodeId: string, args: TransactionArgs)

  /** What a handler returns, or raises, and the provider calls it made on the way. */
  datatype Reply = Reply(outcome: Outcome, calls: seq<Call>)

  /** What `synapse_user_from_slack_user_id` comes to. */
  datatype Lookup = Unregistered | LookupFailed(message: string) | Found(user: User)

  /** `synapse_user_from_slack_user_id`: the local row, then the provider's user. */
  function LookupUser(users: map<string, string>, services: Services, slackUserId: string): (r: Lookup)
    ensures r.Unregistered? <==> slackUserId !in users
  {
    if slackUserId !in users then Unregistered
    else match services.userById(users[slackUserId])
      case Failure(m) => LookupFailed(m)
      case Success(u) => Found(u)
  }

  /** The provider call the lookup makes: none for an unregistered user. */
  function LookupCalls(users: map<string, string>, slackUserId: string): seq<Call> {
    if slackUserId in users then [GetUser(users[slackUserId])] else []
  }

  /** Python truthiness of an optional string: present and not empty. */
  predicate Truthy(x: Option<string>) {
    x.Some? && x.value != ""
  }

  /** A rendered text, or the exception its rendering raised. */
  function Rendered(prefix: string, r: Result<string, Exception>): Outcome {
    match r
    case Success(s) => Ok(prefix + s)
    case Failure(e) => OtherError(e)
  }

  /**
   * The registration gate every handler opens with: a Slack user without a
   * local row gets the registration warning and no provider call; any other
   * is first looked up at the provider.
   */
  predicate Gated(users: map<string, string>, slackUserId: string, r: Reply) {
    (slackUserId !in users ==> r == Reply(Ok(RegistrationWarning()), []))
    && (slackUserId in users ==> |r.calls| >= 1 && r.calls[0] == GetUser(users[slackUserId]))
  }

  // ---------------------------------------------------------------- handlers

  /** `whoami`. */
  function Whoami(users: map<string, string>, services: Services, slackUserId: string, params: Params): (r: Reply)
    ensures Gated(users, slackUserId, r) && |r.calls| <= 1
    ensures r.outcome.Ok? && slackUserId in users ==>
              services.userById(users[slackUserId]).Success?
              && UserSummary(services.userById(users[slackUserId]).value) == Success(r.outcome.text)
    ensures LookupUser(users, services, slackUserId).Found? ==>
              r.outcome == Rendered("", UserSummary(LookupUser(users, services, slackUserId).user))
    ensures LookupUser(users, services, slackUserId).LookupFailed? ==>
              r.outcome == ProviderError(LookupUser(users, services, slackUserId).message)
  {
    var calls := LookupCalls(users, slackUserId);
    match LookupUser(users, services, slackUserId)
    case Unregistered => Reply(Ok(RegistrationWarning()), calls)
    case LookupFailed(m) => Reply(ProviderError(m), calls)
    case Found(u) =>
      match UserSummary(u)
      case Success(summary) =>
        assert "" + summary == summary;
        Reply(Ok(summary), calls)
      case Failure(e) => Reply(OtherError(e), calls)
  }

  /** `verify_node`: the node id and the two micro-deposit amounts are the first three words. */
  function VerifyNode(users: map<string, string>, services: Services, slackUserId: string, params: Params): (r: Reply)
    ensures Gated(users, slackUserId, r) && |r.calls| <= 3
    ensures |r.calls| >= 2 ==> params.FreeText? && r.calls[1] == GetNode(FirstWord(params).value)
    ensures |r.calls| == 3 ==> r.calls[2].VerifyMicrodeposits?
    ensures r.outcome.Ok? && |r.calls| == 3 ==> IsPrefix("*Node verified.*\n", r.outcome.text)
    ensures LookupUser(users, services, slackUserId).Found? ==>
              var id := FirstWord(params);
              var amount1 := WordAfter(params, id);
              var amount2 := WordAfter(params, amount1);
              if !Truthy(id) || !Truthy(amount1) || !Truthy(amount2) then
                r == Reply(Ok(InvalidParamsWarning("verify")), LookupCalls(users, slackUserId))
              else
                r == VerifyWith(services, LookupUser(users, services, slackUserId).user,
                                LookupCalls(users, slackUserId), id.value, amount1.value, amount2.value)
    ensures LookupUser(users, services, slackUserId).LookupFailed? ==>
              r.outcome == ProviderError(LookupUser(users, services, slackUserId).message)
  {
    var calls := LookupCalls(users, slackUserId);
    match LookupUser(users, services, slackUserId)
    case Unregistered => Reply(Ok(RegistrationWarning()), calls)
    case LookupFailed(m) => Reply(ProviderError(m), calls)
    case Found(u) =>
      var id := FirstWord(params);
      var amount1 := WordAfter(params, id);
      var amount2 := WordAfter(params, amount1);
      if !Truthy(id) || !Truthy(amount1) || !Truthy(amount2) then
        Reply(Ok(InvalidParamsWarning("verify")), calls)
      else
        var r := VerifyWith(services, u, calls, id.value, amount1.value, amount2.value);
        assert r.calls[0] == r.calls[..1][0];
        r
  }

  /** The provider calls of `verify_node` once its three words are read. */
  function VerifyWith(services: Services, u: User, calls: seq<Call>, id: string, amount1: string, amount2: string): (r: Reply)
    ensures |calls| + 1 <= |r.calls| <= |calls| + 2
    ensures r.calls[..|calls|] == calls && r.calls[|calls|] == GetNode(id)
    ensures |r.calls| == |calls| + 2 ==> r.calls[|calls| + 1].VerifyMicrodeposits?
                                         && r.calls[|calls| + 1].amount1 == amount1
                                         && r.calls[|calls| + 1].amount2 == amount2
    ensures r.outcome.Ok? ==> |r.calls| == |calls| + 2 && IsPrefix("*Node verified.*\n", r.outcome.text)
    ensures services.nodeById(u, id).Failure? ==> r.outcome == ProviderError(services.nodeById(u, id).error)
    ensures services.nodeById(u, id).Success? ==>
              var verified := services.verifyMicrodeposits(services.nodeById(u, id).value, amount1, amount2);
              && (verified.Failure? ==> r.outcome == ProviderError(verified.error))
              && (verified.Success? ==> r.outcome == Ok("*Node verified.*\n" + NodeSummary(verified.value)))
  {
    var calls' := calls + [GetNode(id)];
    match services.nodeById(u, id)
    case Failure(m) => Reply(ProviderError(m), calls')
    case Success(node) =>
      var calls'' := calls' + [VerifyMicrodeposits(node.id, amount1, amount2)];
      match services.verifyMicrodeposits(node, amount1, amount2)
      case Failure(m) => Reply(ProviderError(m), calls'')
      case Success(verified) => Reply(Ok("*Node verified.*\n" + NodeSummary(verified)), calls'')
  }

  /** The node summaries, in node order. */
  function NodeSummaries(nodes: seq<Node>): (r: seq<string>)
    ensures |r| == |nodes| && forall k :: 0 <= k < |r| ==> r[k] == NodeSummary(nodes[k])
  {
    seq(|nodes|, k requires 0 <= k < |nodes| => NodeSummary(nodes[k]))
  }

  /** `list_nodes`. */
  function ListNodes(users: map<string, string>, services: Services, slackUserId: string, params: Params): (r: Reply)
    ensures Gated(users, slackUserId, r) && |r.calls| <= 2
    ensures |r.calls| == 2 ==> r.calls[1] == AllNodes
    ensures |r.calls| == 2 && r.outcome.Ok? ==>
              LookupUser(users, services, slackUserId).Found?
              && services.allNodes(LookupUser(users, services, slackUserId).user).Success?
              && var nodes := services.allNodes(LookupUser(users, services, slackUserId).user).value;
                 r.outcome.text == if nodes == [] then "*No nodes found for user.*" else JoinSep(NodeSummaries(nodes), "\n")
    ensures LookupUser(users, services, slackUserId).LookupFailed? ==>
              r.outcome == ProviderError(LookupUser(users, services, slackUserId).message)
    ensures LookupUser(users, services, slackUserId).Found?
            && services.allNodes(LookupUser(users, services, slackUserId).user).Failure? ==>
              r.outcome == ProviderError(services.allNodes(LookupUser(users, services, slackUserId).user).error)
  {
    var calls := LookupCalls(users, slackUserId);
    match LookupUser(users, services, slackUserId)
    case Unregistered => Reply(Ok(RegistrationWarning()), calls)
    case LookupFailed(m) => Reply(ProviderError(m), calls)
    case Found(u) =>
      match services.allNodes(u)
      case Failure(m) => Reply(ProviderError(m), calls + [AllNodes])
      case Success(nodes) =>
        if nodes == [] then Reply(Ok("*No nodes found for user.*"), calls + [AllNodes])
        else Reply(Ok(JoinSep(NodeSummaries(nodes), "\n")), calls + [AllNodes])
  }

  /** A list comprehension whose element expression may raise: the first exception ends it. */
  function Comprehension<T>(f: T -> Result<string, Exception>, xs: seq<T>): (r: Result<seq<string>, Exception>)
    ensures r.Success? ==> |r.value| == |xs| && forall k :: 0 <= k < |xs| ==> Success(r.value[k]) == f(xs[k])
    ensures r.Failure? ==> exists k :: 0 <= k < |xs| && f(xs[k]) == Failure(r.error)
                                      && forall j :: 0 <= j < k ==> f(xs[j]).Success?
  {
    if xs == [] then Success([])
    else match f(xs[0])
      case Failure(e) => Failure(e)
      case Success(s) =>
        match Comprehension(f, xs[1..])
        case Failure(e) =>
          assert forall k :: 0 <= k < |xs| - 1 ==> xs[1..][k] == xs[k + 1];
          Failure(e)
        case Success(rest) =>
          var r := [s] + rest;
          assert forall k :: 0 < k < |xs| ==> r[k] == rest[k - 1] && xs[k] == xs[1..][k - 1];
          Success(r)
  }

  /** The transaction summaries, in order; the first one that raises stops the list comprehension. */
  function TransactionSummaries(ts: seq<Transaction>, calendar: nat -> string): (r: Result<seq<string>, Exception>)
    ensures r.Success? ==> |r.value| == |ts|
    ensures r.Success? ==> forall k :: 0 <= k < |ts| ==> Success(r.value[k]) == TransactionSummary(ts[k], calendar, CreatedOnCommands)
    ensures r.Failure? ==> exists k :: 0 <= k < |ts| && TransactionSummary(ts[k], calendar, CreatedOnCommands) == Failure(r.error)
                                      && forall j :: 0 <= j < k ==> TransactionSummary(ts[j], calendar, CreatedOnCommands).Success?
  {
    Comprehension(t => TransactionSummary(t, calendar, CreatedOnCommands), ts)
  }

  /** `list_transactions`: the node is the word after `from`. */
  function ListTransactions(users: map<string, string>, services: Services, slackUserId: string, params: Params): (r: Reply)
    ensures Gated(users, slackUserId, r) && |r.calls| <= 3
    ensures |r.calls| >= 2 <==> LookupUser(users, services, slackUserId).Found? && Truthy(WordAfter(params, Some("from")))
    ensures |r.calls| >= 2 ==> r.calls[1] == GetNode(WordAfter(params, Some("from")).value)
    ensures |r.calls| == 3 ==> r.calls[2].AllTransactions?
    ensures LookupUser(users, services, slackUserId).Found? && !Truthy(WordAfter(params, Some("from"))) ==>
              r == Reply(Ok(InvalidParamsWarning("list_transactions")), LookupCalls(users, slackUserId))
    ensures |r.calls| == 3 && r.outcome.Ok? ==>
              && LookupUser(users, services, slackUserId).Found?
              && var node := services.nodeById(LookupUser(users, services, slackUserId).user, r.calls[1].nodeId);
                 && node.Success? && services.allTransactions(node.value).Success?
                 && var ts := services.allTransactions(node.value).value;
                    if ts == [] then r.outcome.text == "*No transactions found for node.*"
                    else TransactionSummaries(ts, services.calendar).Success?
                         && r.outcome.text == JoinSep(TransactionSummaries(ts, services.calendar).value, "\n")
    ensures LookupUser(users, services, slackUserId).LookupFailed? ==>
              r.outcome == ProviderError(LookupUser(users, services, slackUserId).message)
    ensures |r.calls| == 2 ==> r.outcome.ProviderError?
  {
    var calls := LookupCalls(users, slackUserId);
    match LookupUser(users, services, slackUserId)
    case Unregistered => Reply(Ok(RegistrationWarning()), calls)
    case LookupFailed(m) => Reply(ProviderError(m), calls)
    case Found(u) =>
      var fromId := WordAfter(params, Some("from"));
      if !Truthy(fromId) then Reply(Ok(InvalidParamsWarning("list_transactions")), calls)
      else
        var calls' := calls + [GetNode(fromId.value)];
        match services.nodeById(u, fromId.value)
        case Failure(m) => Reply(ProviderError(m), calls')
        case Success(node) =>
          var calls'' := calls' + [AllTransactions(node.id)];
          match services.allTransactions(node)
          case Failure(m) => Reply(ProviderError(m), calls'')
          case Success(ts) =>
            if ts == [] then Reply(Ok("*No transactions found for node.*"), calls'')
            else match TransactionSummaries(ts, services.calendar)
              case Failure(e) => Reply(OtherError(e), calls'')
              case Success(lines) => Reply(Ok(JoinSep(lines, "\n")), calls'')
  }

  /** What `send` does: its reply and the rows it adds to `recurring_transactions`. */
  datatype SendResult = SendResult(reply: Reply, rows: seq<RecurringTransaction>)

  /**
   * `send`: the amount is the first word, the nodes follow `from` and `to`.
   * With `every` in the text it records a recurring transaction and calls no
   * provider; otherwise it creates a transaction with fixed type, currency
   * and address, and `process_in` when `in` is in the text.
   */
  function SendSpec(users: map<string, string>, services: Services, slackUserId: string, params: Params): (r: SendResult)
    ensures Gated(users, slackUserId, r.reply) && |r.reply.calls| <= 3 && |r.rows| <= 1
    ensures r.rows != [] ==> params.FreeText? && Contains(params.text, "every")
                             && |r.reply.calls| == 1 && r.rows[0].slackUserId == slackUserId
    ensures |r.reply.calls| == 3 ==> r.rows == [] && params.FreeText? && !Contains(params.text, "every")
                                     && r.reply.calls[2].CreateTransaction?
    ensures LookupUser(users, services, slackUserId).Found?
            && (!Truthy(FirstWord(params)) || !Truthy(WordAfter(params, Some("from"))) || !Truthy(WordAfter(params, Some("to")))) ==>
              r == SendResult(Reply(Ok(InvalidParamsWarning("send")), LookupCalls(users, slackUserId)), [])
    ensures LookupUser(users, services, slackUserId).LookupFailed? ==>
              r == SendResult(Reply(ProviderError(LookupUser(users, services, slackUserId).message), LookupCalls(users, slackUserId)), [])
  {
    var calls := LookupCalls(users, slackUserId);
    match LookupUser(users, services, slackUserId)
    case Unregistered => SendResult(Reply(Ok(RegistrationWarning()), calls), [])
    case LookupFailed(m) => SendResult(Reply(ProviderError(m), calls), [])
    case Found(u) =>
      var amount := FirstWord(params);
      var fromId := WordAfter(params, Some("from"));
      var toId := WordAfter(params, Some("to"));
      if !Truthy(amount) || !Truthy(fromId) || !Truthy(toId) then
        SendResult(Reply(Ok(InvalidParamsWarning("send")), calls), [])
      else if Contains(params.text, "every") then
        var row := RecurringTransaction(amount.value, fromId.value, toId.value, WordAfter(params, Some("every")), slackUserId);
        SendResult(Reply(Rendered("*Recurring transaction created.*\n", RecurringSummary(row)), calls), [row])
      else SendTransaction(services, u, calls, params, amount.value, fromId.value, toId.value)
  }

  /** The one-off branch of `send`: the sending node, then `Transaction.create`; no local row. */
  function SendTransaction(services: Services, u: User, calls: seq<Call>, params: Params,
                           amount: string, fromId: string, toId: string): (r: SendResult)
    requires params.FreeText?
    ensures r.rows == [] && |calls| + 1 <= |r.reply.calls| <= |calls| + 2
    ensures r.reply.calls[..|calls|] == calls && r.reply.calls[|calls|] == GetNode(fromId)
    ensures |r.reply.calls| == |calls| + 2 ==>
              r.reply.calls[|calls| + 1].CreateTransaction?
              && r.reply.calls[|calls| + 1].args == SendArgs(params, amount, toId)
    ensures services.nodeById(u, fromId).Failure? ==>
              r.reply.outcome == ProviderError(services.nodeById(u, fromId).error)
    ensures services.nodeById(u, fromId).Success? ==>
              var created := services.createTransaction(services.nodeById(u, fromId).value, SendArgs(params, amount, toId));
              && (created.Failure? ==> r.reply.outcome == ProviderError(created.error))
              && (created.Success? ==>
                    var summary := TransactionSummary(created.value, services.calendar, CreatedOnCommands);
                    && (summary.Success? ==> r.reply.outcome == Ok("*Transaction created.*\n" + summary.value))
                    && (summary.Failure? ==> r.reply.outcome == OtherError(summary.error)))
  {
    var calls' := calls + [GetNode(fromId)];
    match services.nodeById(u, fromId)
    case Failure(m) => SendResult(Reply(ProviderError(m), calls'), [])
    case Success(fromNode) =>
      var args := SendArgs(params, amount, toId);
      var calls'' := calls' + [CreateTransaction(fromNode.id, args)];
      match services.createTransaction(fromNode, args)
      case Failure(m) => SendResult(Reply(ProviderError(m), calls''), [])
      case Success(t) =>
        SendResult(Reply(Rendered("*Transaction created.*\n", TransactionSummary(t, services.calendar, CreatedOnCommands)), calls''), [])
  }

  /** The `args` dictionary of `send`. */
  function SendArgs(params: Params, amount: string, toId: string): (r: TransactionArgs)
    requires params.FreeText?
    ensures r.toType == "ACH-US" && r.currency == "USD" && r.ip == "127.0.0.1"
    ensures r.amount == amount && r.toId == toId
    ensures r.processIn.Some? <==> Contains(params.text, "in")
    ensures r.processIn.Some? ==> r.processIn.value == WordAfter(params, Some("in"))
  {
    TransactionArgs(amount, toId, "ACH-US", "USD", "127.0.0.1",
      if Contains(params.text, "in") then Some(WordAfter(params, Some("in"))) else None)
  }

  /** The local tables the handlers use. */
  /** The one-off branch of `send`, step by step: fetch the sending node, then create the transaction. */
  method SendOneOff(services: Services, u: User, calls: seq<Call>, params: Params,
                    amount: string, fromId: string, toId: string) returns (reply: Reply)
    requires params.FreeText?
    ensures reply == SendTransaction(services, u, calls, params, amount, fromId, toId).reply
  {
    var made := calls + [GetNode(fromId)];
    var fromNode := services.nodeById(u, fromId);
    if fromNode.Failure? {
      return Reply(ProviderError(fromNode.error), made);
    }
    var args := SendArgs(params, amount, toId);
    made := made + [CreateTransaction(fromNode.value.id, args)];
    var t := services.createTransaction(fromNode.value, args);
    if t.Failure? {
      return Reply(ProviderError(t.error), made);
    }
    reply := Reply(Rendered("*Transaction created.*\n", TransactionSummary(t.value, services.calendar, CreatedOnCommands)), made);
  }

  class Store {
    /** `users`: Slack user id to the provider's user id. */
    var users: map<string, string>
    /** `recurring_transactions`, in insertion order. */
    var recurring: seq<RecurringTransaction>

    constructor(users: map<string, string>, recurring: seq<RecurringTransaction>)
      ensures this.users == users && this.recurring == recurring
    {
      this.users := users;
      this.recurring := recurring;
    }

    /** `create_recurring_transaction`: one row built from the arguments, added and committed. */
    method CreateRecurringTransaction(amount: string, fromId: string, toId: string, periodicity: Option<string>, slackUserId: string)
      returns (row: RecurringTransaction)
      modifies this
      ensures row == RecurringTransaction(amount, fromId, toId, periodicity, slackUserId)
      ensures recurring == old(recurring) + [row] && users == old(users)
    {
      row := RecurringTransaction(amount, fromId, toId, periodicity, slackUserId);
      recurring := recurring + [row];
    }

    /** `send`, on the store. */
    method Send(services: Services, slackUserId: string, params: Params) returns (reply: Reply)
      modifies this
      ensures reply == SendSpec(old(users), services, slackUserId, params).reply
      ensures recurring == old(recurring) + SendSpec(old(users), services, slackUserId, params).rows
      ensures users == old(users)
    {
      ghost var spec := SendSpec(users, services, slackUserId, params);
      var calls := LookupCalls(users, slackUserId);
      var lookup := LookupUser(users, services, slackUserId);
      if lookup.Unregistered? {
        reply := Reply(Ok(RegistrationWarning()), calls);
        assert spec == SendResult(reply, []);
        return;
      }
      if lookup.LookupFailed? {
        reply := Reply(ProviderError(lookup.message), calls);
        assert spec == SendResult(reply, []);
        return;
      }
      var amount := FirstWord(params);
      var fromId := WordAfter(params, Some("from"));
      var toId := WordAfter(params, Some("to"));
      if !Truthy(amount) || !Truthy(fromId) || !Truthy(toId) {
        reply := Reply(Ok(InvalidParamsWarning("send")), calls);
        assert spec == SendResult(reply, []);
        return;
      }
      if Contains(params.text, "every") {
        var periodicity := WordAfter(params, Some("every"));
        assert spec.rows == [RecurringTransaction(amount.value, fromId.value, toId.value, periodicity, slackUserId)];
        var row := CreateRecurringTransaction(amount.value, fromId.value, toId.value, periodicity, slackUserId);
        reply := Reply(Rendered("*Recurring transaction created.*\n", RecurringSummary(row)), calls);
        assert spec.reply == reply;
        return;
      }
      assert spec == SendTransaction(services, lookup.user, calls, params, amount.value, fromId.value, toId.value);
      reply := SendOneOff(services, lookup.user, calls, params, amount.value, fromId.value, toId.value);
    }
  }

  // ---------------------------------------------------------------- properties

  /** A one-call trace extended by two calls, proved apart from the large contexts that use it. */
  lemma Three(a: Call, b: Call, c: Call)
    ensures [a] + [b, c] == [a, b, c]
  {
  }

  /** Words as `split()` yields them: not empty, no whitespace. */
  predicate Words(ws: seq<string>) {
    forall k :: 0 <= k < |ws| ==> ws[k] != [] && NoSpace(ws[k])
  }

  /** `verify <node> <amount1> <amount2>`: the node is fetched and verified with the two amounts. */
  lemma VerifyNodeOf(users: map<string, string>, services: Services, slackUserId: string,
                     ws: seq<string>, u: User, node: Node, verified: Node)
    requires Words(ws) && |ws| >= 3 && ws[1] != ws[0]
    requires slackUserId in users && services.userById(users[slackUserId]) == Success(u)
    requires services.nodeById(u, ws[0]) == Success(node)
    requires services.verifyMicrodeposits(node, ws[1], ws[2]) == Success(verified)
    ensures VerifyNode(users, services, slackUserId, FreeText(JoinSep(ws, " ")))
         == Reply(Ok("*Node verified.*\n" + NodeSummary(verified)),
                  [GetUser(users[slackUserId]), GetNode(ws[0]), VerifyMicrodeposits(node.id, ws[1], ws[2])])
  {
    var p := FreeText(JoinSep(ws, " "));
    VerifyParse(ws);
    assert ws[0] != [] && ws[1] != [] && ws[2] != [];
    var calls := [GetUser(users[slackUserId])];
    VerifyNodeWith(users, services, slackUserId, p, u, ws[0], ws[1], ws[2]);
    VerifyWithOf(services, u, calls, ws[0], ws[1], ws[2], node);
    Three(GetUser(users[slackUserId]), GetNode(ws[0]), VerifyMicrodeposits(node.id, ws[1], ws[2]));
  }

  /** `verify <node> <amount1> <amount2>`: the three words, read by value. */
  lemma VerifyParse(ws: seq<string>)
    requires Words(ws) && |ws| >= 3 && ws[1] != ws[0]
    ensures FirstWord(FreeText(JoinSep(ws, " "))) == Some(ws[0])
    ensures WordAfter(FreeText(JoinSep(ws, " ")), Some(ws[0])) == Some(ws[1])
    ensures WordAfter(FreeText(JoinSep(ws, " ")), Some(ws[1])) == Some(ws[2])
  {
    FirstWordOf(ws);
    WordAfterOf(ws, 0);
    WordAfterOf(ws, 1);
  }

  /** The node is fetched, then verified with the two amounts. */
  lemma VerifyWithOf(services: Services, u: User, calls: seq<Call>, id: string, amount1: string, amount2: string,
                     node: Node)
    requires services.nodeById(u, id) == Success(node)
    ensures VerifyWith(services, u, calls, id, amount1, amount2).calls
         == calls + [GetNode(id), VerifyMicrodeposits(node.id, amount1, amount2)]
    ensures services.verifyMicrodeposits(node, amount1, amount2).Success? ==>
              VerifyWith(services, u, calls, id, amount1, amount2).outcome
              == Ok("*Node verified.*\n" + NodeSummary(services.verifyMicrodeposits(node, amount1, amount2).value))
  {
    assert calls + [GetNode(id)] + [VerifyMicrodeposits(node.id, amount1, amount2)]
        == calls + [GetNode(id), VerifyMicrodeposits(node.id, amount1, amount2)];
  }

  /** `verify_node` once its three words are read: the lookup, then the provider calls. */
  lemma VerifyNodeWith(users: map<string, string>, services: Services, slackUserId: string, params: Params,
                       u: User, id: string, amount1: string, amount2: string)
    requires FirstWord(params) == Some(id) && WordAfter(params, Some(id)) == Some(amount1)
    requires WordAfter(params, Some(amount1)) == Some(amount2)
    requires id != "" && amount1 != "" && amount2 != ""
    requires slackUserId in users && services.userById(users[slackUserId]) == Success(u)
    ensures VerifyNode(users, services, slackUserId, params)
         == VerifyWith(services, u, [GetUser(users[slackUserId])], id, amount1, amount2)
  {
    assert LookupUser(users, services, slackUserId) == Found(u);
    assert LookupCalls(users, slackUserId) == [GetUser(users[slackUserId])];
    assert Truthy(Some(id)) && Truthy(Some(amount1)) && Truthy(Some(amount2));
  }

  /**
   * The amounts are found by value, not by position: when the first amount
   * repeats the node id, the word after the id is taken for both amounts.
   */
  lemma VerifyRepeatedId(users: map<string, string>, services: Services, slackUserId: string,
                         ws: seq<string>, u: User, node: Node)
    requires Words(ws) && |ws| >= 2 && ws[1] == ws[0]
    requires slackUserId in users && services.userById(users[slackUserId]) == Success(u)
    requires services.nodeById(u, ws[0]) == Success(node)
    ensures VerifyNode(users, services, slackUserId, FreeText(JoinSep(ws, " "))).calls
         == [GetUser(users[slackUserId]), GetNode(ws[0]), VerifyMicrodeposits(node.id, ws[0], ws[0])]
  {
    var p := FreeText(JoinSep(ws, " "));
    assert FirstWord(p) == Some(ws[0]) && WordAfter(p, Some(ws[0])) == Some(ws[0]) by {
      FirstWordOf(ws);
      WordAfterOf(ws, 0);
    }
    assert ws[0] != [];
    var calls := [GetUser(users[slackUserId])];
    VerifyNodeWith(users, services, slackUserId, p, u, ws[0], ws[0], ws[0]);
    VerifyWithOf(services, u, calls, ws[0], ws[0], ws[0], node);
    Three(GetUser(users[slackUserId]), GetNode(ws[0]), VerifyMicrodeposits(node.id, ws[0], ws[0]));
  }

  /** A node id alone is not enough: the warning, after the user lookup only. */
  lemma VerifyOneWord(users: map<string, string>, services: Services, slackUserId: string, w: string)
    requires Words([w])
    requires slackUserId in users && services.userById(users[slackUserId]).Success?
    ensures VerifyNode(users, services, slackUserId, FreeText(w))
         == Reply(Ok(InvalidParamsWarning("verify")), [GetUser(users[slackUserId])])
  {
    assert JoinSep([w], " ") == w;
    FirstWordOf([w]);
    WordAfterNone([w], w);
  }

  /** Every node the provider lists shows up in the reply of `list_nodes`. */
  lemma ListNodesShowsAll(users: map<string, string>, services: Services, slackUserId: string,
                          params: Params, u: User, nodes: seq<Node>)
    requires slackUserId in users && services.userById(users[slackUserId]) == Success(u)
    requires services.allNodes(u) == Success(nodes) && nodes != []
    ensures ListNodes(users, services, slackUserId, params).outcome.Ok?
    ensures forall k :: 0 <= k < |nodes| ==>
              Contains(ListNodes(users, services, slackUserId, params).outcome.text, NodeSummary(nodes[k]))
  {
    var text := ListNodes(users, services, slackUserId, params).outcome.text;
    assert text == JoinSep(NodeSummaries(nodes), "\n");
    forall k | 0 <= k < |nodes|
      ensures Contains(text, NodeSummary(nodes[k]))
    {
      JoinSepContains(NodeSummaries(nodes), "\n", k);
    }
  }

  /**
   * Every transaction of the node named after `from` shows up, summarised, in the
   * reply of `list_transactions`, when the node has transactions and none raises.
   */
  lemma ListTransactionsShowsAll(users: map<string, string>, services: Services, slackUserId: string,
                                 params: Params, u: User, fromId: string, node: Node, ts: seq<Transaction>)
    requires slackUserId in users && services.userById(users[slackUserId]) == Success(u)
    requires WordAfter(params, Some("from")) == Some(fromId) && fromId != ""
    requires services.nodeById(u, fromId) == Success(node) && services.allTransactions(node) == Success(ts)
    requires ts != [] && TransactionSummaries(ts, services.calendar).Success?
    ensures ListTransactions(users, services, slackUserId, params).outcome.Ok?
    ensures forall k :: 0 <= k < |ts| ==>
              && TransactionSummary(ts[k], services.calendar, CreatedOnCommands).Success?
              && Contains(ListTransactions(users, services, slackUserId, params).outcome.text,
                          TransactionSummary(ts[k], services.calendar, CreatedOnCommands).value)
  {
    var lines := TransactionSummaries(ts, services.calendar).value;
    var text := ListTransactions(users, services, slackUserId, params).outcome.text;
    assert text == JoinSep(lines, "\n");
    forall k | 0 <= k < |ts|
      ensures Contains(text, TransactionSummary(ts[k], services.calendar, CreatedOnCommands).value)
    {
      JoinSepContains(lines, "\n", k);
    }
  }

  /** `list_transactions ... from <node> ...`: the node named after the first `from` is the one fetched. */
  lemma ListTransactionsFrom(users: map<string, string>, services: Services, slackUserId: string,
                             ws: seq<string>, i: nat)
    requires Words(ws) && i + 1 < |ws| && ws[i] == "from" && "from" !in ws[..i]
    requires slackUserId in users && services.userById(users[slackUserId]).Success?
    ensures |ListTransactions(users, services, slackUserId, FreeText(JoinSep(ws, " "))).calls| >= 2
    ensures ListTransactions(users, services, slackUserId, FreeText(JoinSep(ws, " "))).calls[1] == GetNode(ws[i + 1])
  {
    WordAfterOf(ws, i);
    assert ws[i + 1] != [];
  }

  /**
   * Without a word after `from` -- no text at all, a form's fields, or words in
   * which `from` is missing or last -- `list_transactions` warns after the user lookup only.
   */
  lemma ListTransactionsWithoutFrom(users: map<string, string>, services: Services, slackUserId: string,
                                    params: Params, ws: seq<string>)
    requires !params.FreeText? || (params == FreeText(JoinSep(ws, " ")) && Words(ws) && (ws != [] ==> "from" !in ws[..|ws| - 1]))
    requires slackUserId in users && services.userById(users[slackUserId]).Success?
    ensures ListTransactions(users, services, slackUserId, params)
         == Reply(Ok(InvalidParamsWarning("list_transactions")), [GetUser(users[slackUserId])])
  {
    if params.FreeText? {
      WordAfterNone(ws, "from");
    }
  }

  /** `send <amount> ... from <a> ... to <b>`: the amount and the two nodes, read from the words. */
  lemma SendParse(ws: seq<string>, i: nat, j: nat)
    requires Words(ws) && |ws| >= 1
    requires i + 1 < |ws| && ws[i] == "from" && "from" !in ws[..i]
    requires j + 1 < |ws| && ws[j] == "to" && "to" !in ws[..j]
    ensures FirstWord(FreeText(JoinSep(ws, " "))) == Some(ws[0])
    ensures WordAfter(FreeText(JoinSep(ws, " ")), Some("from")) == Some(ws[i + 1])
    ensures WordAfter(FreeText(JoinSep(ws, " ")), Some("to")) == Some(ws[j + 1])
  {
    FirstWordOf(ws);
    WordAfterOf(ws, i);
    WordAfterOf(ws, j);
  }

  /** `send` once its three words are read: a recurring row, or the one-off branch. */
  lemma SendWith(users: map<string, string>, services: Services, slackUserId: string, params: Params,
                 u: User, amount: string, fromId: string, toId: string)
    requires FirstWord(params) == Some(amount) && WordAfter(params, Some("from")) == Some(fromId)
    requires WordAfter(params, Some("to")) == Some(toId)
    requires amount != "" && fromId != "" && toId != ""
    requires slackUserId in users && services.userById(users[slackUserId]) == Success(u)
    ensures params.FreeText?
    ensures Contains(params.text, "every") ==>
              SendSpec(users, services, slackUserId, params).rows
              == [RecurringTransaction(amount, fromId, toId, WordAfter(params, Some("every")), slackUserId)]
              && SendSpec(users, services, slackUserId, params).reply.calls == [GetUser(users[slackUserId])]
    ensures !Contains(params.text, "every") ==>
              SendSpec(users, services, slackUserId, params)
              == SendTransaction(services, u, [GetUser(users[slackUserId])], params, amount, fromId, toId)
  {
    assert LookupUser(users, services, slackUserId) == Found(u);
    assert LookupCalls(users, slackUserId) == [GetUser(users[slackUserId])];
    assert Truthy(Some(amount)) && Truthy(Some(fromId)) && Truthy(Some(toId));
  }

  /** The one-off branch, once the sending node is found: it is fetched, then `Transaction.create` is called. */
  lemma SendTransactionOf(services: Services, u: User, calls: seq<Call>, params: Params,
                          amount: string, fromId: string, toId: string, fromNode: Node)
    requires params.FreeText? && services.nodeById(u, fromId) == Success(fromNode)
    ensures SendTransaction(services, u, calls, params, amount, fromId, toId).reply.calls
         == calls + [GetNode(fromId), CreateTransaction(fromNode.id, SendArgs(params, amount, toId))]
  {
    assert calls + [GetNode(fromId)] + [CreateTransaction(fromNode.id, SendArgs(params, amount, toId))]
        == calls + [GetNode(fromId), CreateTransaction(fromNode.id, SendArgs(params, amount, toId))];
  }

  /** With `every` in the text, `send` records one recurring row and calls the provider only for the user. */
  lemma SendRecurring(users: map<string, string>, services: Services, slackUserId: string,
                      ws: seq<string>, i: nat, j: nat, u: User)
    requires Words(ws) && |ws| >= 1
    requires i + 1 < |ws| && ws[i] == "from" && "from" !in ws[..i]
    requires j + 1 < |ws| && ws[j] == "to" && "to" !in ws[..j]
    requires Contains(JoinSep(ws, " "), "every")
    requires slackUserId in users && services.userById(users[slackUserId]) == Success(u)
    ensures SendSpec(users, services, slackUserId, FreeText(JoinSep(ws, " "))).rows
         == [RecurringTransaction(ws[0], ws[i + 1], ws[j + 1],
                                  WordAfter(FreeText(JoinSep(ws, " ")), Some("every")), slackUserId)]
    ensures SendSpec(users, services, slackUserId, FreeText(JoinSep(ws, " "))).reply.calls
         == [GetUser(users[slackUserId])]
    ensures var row := RecurringTransaction(ws[0], ws[i + 1], ws[j + 1],
                                            WordAfter(FreeText(JoinSep(ws, " ")), Some("every")), slackUserId);
            RecurringSummary(row).Success? ==>
              SendSpec(users, services, slackUserId, FreeText(JoinSep(ws, " "))).reply.outcome
              == Ok("*Recurring transaction created.*\n" + RecurringSummary(row).value)
  {
    SendParse(ws, i, j);
    assert ws[0] != [] && ws[i + 1] != [] && ws[j + 1] != [];
    SendWith(users, services, slackUserId, FreeText(JoinSep(ws, " ")), u, ws[0], ws[i + 1], ws[j + 1]);
  }

  /**
   * `every` is looked for as a substring: a text that has it only inside a
   * longer word still records a recurring row, with no periodicity.
   */
  lemma SendEveryInsideWord(users: map<string, string>, services: Services, slackUserId: string,
                            ws: seq<string>, i: nat, j: nat, u: User)
    requires Words(ws) && |ws| >= 1
    requires i + 1 < |ws| && ws[i] == "from" && "from" !in ws[..i]
    requires j + 1 < |ws| && ws[j] == "to" && "to" !in ws[..j]
    requires Contains(JoinSep(ws, " "), "every") && "every" !in ws[..|ws| - 1]
    requires slackUserId in users && services.userById(users[slackUserId]) == Success(u)
    ensures SendSpec(users, services, slackUserId, FreeText(JoinSep(ws, " "))).rows
         == [RecurringTransaction(ws[0], ws[i + 1], ws[j + 1], None, slackUserId)]
  {
    SendRecurring(users, services, slackUserId, ws, i, j, u);
    WordAfterNone(ws, "every");
  }

  /**
   * Without `every`, `send` fetches the sending node and creates an ACH
   * transfer in dollars from it; no local row is written.
   */
  lemma SendCreates(users: map<string, string>, services: Services, slackUserId: string,
                    ws: seq<string>, i: nat, j: nat, u: User, fromNode: Node)
    requires Words(ws) && |ws| >= 1
    requires i + 1 < |ws| && ws[i] == "from" && "from" !in ws[..i]
    requires j + 1 < |ws| && ws[j] == "to" && "to" !in ws[..j]
    requires !Contains(JoinSep(ws, " "), "every")
    requires slackUserId in users && services.userById(users[slackUserId]) == Success(u)
    requires services.nodeById(u, ws[i + 1]) == Success(fromNode)
    ensures SendSpec(users, services, slackUserId, FreeText(JoinSep(ws, " "))).rows == []
    ensures SendSpec(users, services, slackUserId, FreeText(JoinSep(ws, " "))).reply.calls
         == [GetUser(users[slackUserId]), GetNode(ws[i + 1]),
             CreateTransaction(fromNode.id, SendArgs(FreeText(JoinSep(ws, " ")), ws[0], ws[j + 1]))]
    ensures var created := services.createTransaction(fromNode, SendArgs(FreeText(JoinSep(ws, " ")), ws[0], ws[j + 1]));
            && (created.Failure? ==>
                  SendSpec(users, services, slackUserId, FreeText(JoinSep(ws, " "))).reply.outcome
                  == ProviderError(created.error))
            && (created.Success? && TransactionSummary(created.value, services.calendar, CreatedOnCommands).Success? ==>
                  SendSpec(users, services, slackUserId, FreeText(JoinSep(ws, " "))).reply.outcome
                  == Ok("*Transaction created.*\n" + TransactionSummary(created.value, services.calendar, CreatedOnCommands).value))
  {
    var p := FreeText(JoinSep(ws, " "));
    SendParse(ws, i, j);
    assert ws[0] != [] && ws[i + 1] != [] && ws[j + 1] != [];
    var calls := [GetUser(users[slackUserId])];
    SendWith(users, services, slackUserId, p, u, ws[0], ws[i + 1], ws[j + 1]);
    SendTransactionOf(services, u, calls, p, ws[0], ws[i + 1], ws[j + 1], fromNode);
    Three(GetUser(users[slackUserId]), GetNode(ws[i + 1]), CreateTransaction(fromNode.id, SendArgs(p, ws[0], ws[j + 1])));
  }

  /**
   * `in` is looked for as a substring too: when it occurs only inside a
   * longer word, `process_in` is set, to `None`.
   */
  lemma SendInInsideWord(ws: seq<string>, amount: string, toId: string)
    requires Words(ws) && ws != []
    requires Contains(JoinSep(ws, " "), "in") && "in" !in ws[..|ws| - 1]
    ensures SendArgs(FreeText(JoinSep(ws, " ")), amount, toId).processIn == Some(None)
  {
    WordAfterNone(ws, "in");
  }
}
