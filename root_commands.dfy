/**
 * The first command handlers, `commands.py` at the top of the repository:
 * class `Commands` with static methods over the whole command text. The
 * payments provider and the module-level `user` fetched at import are
 * parameters. Each handler either returns (text, or `None` for
 * `list_resource` on an unknown word) or raises; the provider calls it makes
 * are recorded in order.
 */
module RootCommands {
  import opened Wrappers
  import opened Text
  import opened Model
  import Helpers

  /** The provider as the handlers see it; `Failure` carries a `SynapsePayError` message. */
  datatype Provider = Provider(
    nodeById: string -> Result<Node, string>,
    allNodes: Result<seq<Node>, string>,
    allTransactions: Node -> Result<seq<Transaction>, string>,
    createTransaction: (Node, SendArgs) -> Result<Transaction, string>,
    calendar: nat -> string)

  /** The keyword arguments `send` passes to `Transaction.create`. */
  datatype SendArgs = SendArgs(
    amount: string, toId: string, toType: string, currency: string, ip: string,
    processIn: Option<string>)

  /** A provider call, with the arguments that identify it. */
  datatype Call =
    | GetNode(nodeId: string)
    | AllNodes
    | AllTransactions(nodeId: string)
    | CreateTransaction(fromNodeId: string, args: SendArgs)

  /** What escapes a handler: a provider error, or any other Python exception. */
  datatype Raised = ProviderRaised(message: string) | PythonRaised(exception: Exception)

  /** A handler's return value (`None` is possible) or what it raised, and the calls it made. */
  datatype Response = Response(result: Result<Option<string>, Raised>, calls: seq<Call>)

  // ---------------------------------------------------------------- word_after

  /**
   * `Commands.word_after`: `words.index(word)` raises `ValueError` when the
   * word is absent, and `words[index]` raises `IndexError` when it is last.
   */
  function WordAfter(sentence: string, word: string): (r: Result<string, Exception>)
    ensures r.Failure? <==> !Helpers.FollowedIn(SplitWs(sentence), word)
    ensures r.Failure? ==> (r.error.kind == ValueError <==> word !in SplitWs(sentence))
    ensures r.Failure? ==> r.error.kind == ValueError || r.error.kind == IndexError
  {
    var words := SplitWs(sentence);
    match IndexOfWord(words, word)
    case None => Failure(Exception(ValueError, "'" + word + "' is not in list"))
    case Some(i) =>
      assert Helpers.FirstAt(words, word, i);
      Helpers.FirstAtUnique(words, word, i);
      if i + 1 < |words| then Success(words[i + 1]) else Failure(Helpers.IndexFailure())
  }

  /** The raising `word_after` and the later helper agree wherever the helper does not return `None`. */
  lemma WordAfterAgrees(sentence: string, word: string)
    ensures WordAfter(sentence, word).Success? <==> Helpers.WordAfter(FreeText(sentence), Some(word)).Some?
    ensures WordAfter(sentence, word).Success? ==>
              Helpers.WordAfter(FreeText(sentence), Some(word)) == Some(WordAfter(sentence, word).value)
  {
  }

  /** In a sentence of words, the word after the first occurrence of `ws[i]` is `ws[i + 1]`. */
  lemma WordAfterOf(ws: seq<string>, i: nat)
    requires forall k :: 0 <= k < |ws| ==> ws[k] != [] && NoSpace(ws[k])
    requires i + 1 < |ws| && ws[i] !in ws[..i]
    ensures WordAfter(JoinSep(ws, " "), ws[i]) == Success(ws[i + 1])
  {
    Helpers.WordAfterOf(ws, i);
    WordAfterAgrees(JoinSep(ws, " "), ws[i]);
  }

  /** An absent word raises `ValueError`. */
  lemma WordAfterAbsent(ws: seq<string>, w: string)
    requires forall k :: 0 <= k < |ws| ==> ws[k] != [] && NoSpace(ws[k])
    requires w !in ws
    ensures WordAfter(JoinSep(ws, " "), w).Failure?
    ensures WordAfter(JoinSep(ws, " "), w).error.kind == ValueError
  {
    SplitWsJoin(ws);
  }

  /** A word that occurs only as the last one raises `IndexError`. */
  lemma WordAfterLast(ws: seq<string>, w: string)
    requires forall k :: 0 <= k < |ws| ==> ws[k] != [] && NoSpace(ws[k])
    requires w != [] && NoSpace(w) && w !in ws
    ensures WordAfter(JoinSep(ws + [w], " "), w).Failure?
    ensures WordAfter(JoinSep(ws + [w], " "), w).error.kind == IndexError
  {
    var all := ws + [w];
    assert all[..|all| - 1] == ws && all[|all| - 1] == w;
    SplitWsJoin(all);
    Helpers.NotFollowed(all, w);
  }

  // ---------------------------------------------------------------- who_am_i

  /** `who_am_i`: the module-level user's first legal name and id; it ignores the command. */
  function WhoAmI(user: User): (r: Result<string, Exception>)
    ensures r.Failure? <==> user.legalNames == []
    ensures r.Success? ==> (IsPrefix("You are " + user.legalNames[0], r.value)
                            && IsSuffix(" (user_id: " + user.id + ")", r.value))
  {
    if user.legalNames == [] then Failure(Helpers.IndexFailure())
    else
      var head := "You are " + user.legalNames[0];
      var tail := " (user_id: " + user.id + ")";
      var r := head + tail;
      assert r[..|head|] == head && r[|r| - |tail|..] == tail;
      Success(r)
  }

  // ---------------------------------------------------------------- list

  /** One line of `list_nodes`: the type and nickname, then the node id in parentheses at the end. */
  function NodeLine(n: Node): (r: string)
    ensures IsPrefix(n.nodeType + " - " + n.nickname + " (node_id: ", r)
    ensures IsSuffix(n.id + ")", r)
  {
    var head := n.nodeType + " - " + n.nickname + " (node_id: ";
    var r := head + (n.id + ")");
    assert r[..|head|] == head && r[|head|..] == n.id + ")";
    r
  }

  function NodeLines(nodes: seq<Node>): (r: seq<string>)
    ensures |r| == |nodes| && forall k :: 0 <= k < |r| ==> r[k] == NodeLine(nodes[k])
  {
    seq(|nodes|, k requires 0 <= k < |nodes| => NodeLine(nodes[k]))
  }

  /** `list_nodes`: one line per node of the user, joined by line breaks. */
  function ListNodes(p: Provider): (r: Response)
    ensures r.calls == [AllNodes]
    ensures r.result.Failure? <==> p.allNodes.Failure?
    ensures r.result.Success? ==> r.result.value == Some(JoinSep(NodeLines(p.allNodes.value), "\n"))
  {
    match p.allNodes
    case Failure(m) => Response(Failure(ProviderRaised(m)), [AllNodes])
    case Success(nodes) => Response(Success(Some(JoinSep(NodeLines(nodes), "\n"))), [AllNodes])
  }

  /** Splitting the `list_nodes` text at line breaks gives back one line per node, in order. */
  lemma ListNodesLines(p: Provider)
    requires p.allNodes.Success? && |p.allNodes.value| >= 1
    requires forall n :: n in p.allNodes.value ==> '\n' !in n.nodeType + n.nickname + n.id
    ensures var text := ListNodes(p).result.value.value;
            Split(text, '\n') == NodeLines(p.allNodes.value)
  {
    var lines := NodeLines(p.allNodes.value);
    forall k | 0 <= k < |lines|
      ensures '\n' !in lines[k]
    {
      var n := p.allNodes.value[k];
      assert n in p.allNodes.value;
      assert forall c :: c in n.nodeType ==> c in n.nodeType + n.nickname + n.id;
      assert forall c :: c in n.nickname ==> c in n.nodeType + n.nickname + n.id;
      assert forall c :: c in n.id ==> c in n.nodeType + n.nickname + n.id;
    }
    SplitJoin(lines, '\n');
  }

  const UndefinedWordAfter: Exception := Exception(NameError, "name 'word_after' is not defined")
  const UndefinedFormatCurrency: Exception := Exception(NameError, "name 'format_currency' is not defined")

  /**
   * `list_transactions`: the node, then its transactions. Each line calls the
   * bare name `format_currency`, which the module does not define, so any
   * transaction at all raises `NameError`; no transactions give the empty text.
   */
  function ListTransactions(p: Provider, fromId: string): (r: Response)
    ensures |r.calls| >= 1 && r.calls[0] == GetNode(fromId)
    ensures r.result.Success? <==>
              p.nodeById(fromId).Success? && p.allTransactions(p.nodeById(fromId).value) == Success([])
    ensures r.result.Success? ==> r.result.value == Some("")
  {
    match p.nodeById(fromId)
    case Failure(m) => Response(Failure(ProviderRaised(m)), [GetNode(fromId)])
    case Success(node) =>
      var calls := [GetNode(fromId), AllTransactions(fromId)];
      match p.allTransactions(node)
      case Failure(m) => Response(Failure(ProviderRaised(m)), calls)
      case Success(ts) =>
        if ts == [] then Response(Success(Some("")), calls)
        else Response(Failure(PythonRaised(UndefinedFormatCurrency)), calls)
  }

  /**
   * `list_resource`: the word after `list` picks the resource. `nodes` lists
   * the nodes; `transactions` reaches the bare name `word_after` first and
   * raises `NameError`; any other word returns `None`.
   */
  function ListResource(p: Provider, command: string): (r: Response)
    ensures r.calls != [] <==> WordAfter(command, "list") == Success("nodes")
    ensures WordAfter(command, "list").Failure? ==> r.result == Failure(PythonRaised(WordAfter(command, "list").error))
  {
    match WordAfter(command, "list")
    case Failure(e) => Response(Failure(PythonRaised(e)), [])
    case Success(resource) =>
      if resource == "nodes" then ListNodes(p)
      else if resource == "transactions" then Response(Failure(PythonRaised(UndefinedWordAfter)), [])
      else Response(Success(None), [])
  }

  /** The three routes of `list_resource`, by the word after `list`; only `nodes` reaches the provider. */
  lemma ListResourceRoutes(p: Provider, command: string)
    requires WordAfter(command, "list").Success?
    ensures var word := WordAfter(command, "list").value;
            && (word == "nodes" ==> ListResource(p, command) == ListNodes(p))
            && (word == "transactions" ==>
                  ListResource(p, command) == Response(Failure(PythonRaised(UndefinedWordAfter)), []))
            && (word != "nodes" && word != "transactions" ==>
                  ListResource(p, command) == Response(Success(None), []))
  {
  }

  /** A command whose words begin `list transactions` never lists anything: it raises `NameError` whatever the provider holds. */
  lemma ListTransactionsUnreachable(p: Provider, command: string)
    requires |SplitWs(command)| >= 2 && SplitWs(command)[0] == "list" && SplitWs(command)[1] == "transactions"
    ensures ListResource(p, command) == Response(Failure(PythonRaised(UndefinedWordAfter)), [])
  {
    var words := SplitWs(command);
    assert IndexOfWord(words, "list") == Some(0);
    assert WordAfter(command, "list") == Success("transactions");
    assert "transactions" != "nodes" by {
      assert |"transactions"| != |"nodes"|;
    }
  }

  // ---------------------------------------------------------------- send

  /**
   * The `args` of `send`, built in order: the amount after `send`, the
   * recipient after `to`, the fixed type, currency and address, and, when
   * the text contains `on` anywhere, `process_in` read from the word after `in`.
   */
  function SendArgsOf(command: string): (r: Result<SendArgs, Exception>)
    ensures r.Success? <==> WordAfter(command, "send").Success? && WordAfter(command, "to").Success?
                            && (Contains(command, "on") ==> WordAfter(command, "in").Success?)
    ensures r.Success? ==> (r.value.amount == WordAfter(command, "send").value
                            && r.value.toId == WordAfter(command, "to").value
                            && r.value.toType == "SYNAPSE-US" && r.value.currency == "USD"
                            && r.value.ip == "127.0.0.1")
    ensures r.Success? ==> (r.value.processIn.Some? <==> Contains(command, "on"))
    ensures r.Success? && r.value.processIn.Some? ==> r.value.processIn.value == WordAfter(command, "in").value
  {
    match WordAfter(command, "send")
    case Failure(e) => Failure(e)
    case Success(amount) =>
      match WordAfter(command, "to")
      case Failure(e) => Failure(e)
      case Success(toId) =>
        var args := SendArgs(amount, toId, "SYNAPSE-US", "USD", "127.0.0.1", None);
        if Contains(command, "on") then
          match WordAfter(command, "in")
          case Failure(e) => Failure(e)
          case Success(processIn) => Success(args.(processIn := Some(processIn)))
        else Success(args)
  }

  const UnboundTransaction: Exception :=
    Exception(UnboundLocalError, "local variable 'transaction' referenced before assignment")

  /**
   * The reply of `send` for a created transaction. The arguments of
   * `format` are evaluated left to right, so the first that raises decides:
   * the amount, the sender's name, the recipient's name, then the schedule.
   */
  function Created(t: Transaction, calendar: nat -> string): (r: Result<string, Exception>)
    ensures r.Success? <==> '.' in t.amount && t.fromNames != [] && t.toNames != [] && t.processOn >= 1000
    ensures r.Success? ==> IsPrefix("Created $", r.value)
    ensures r.Failure? && '.' !in t.amount ==> r.error == Helpers.IndexFailure()
    ensures r.Success? ==>
              r.value == "Created $" + (Helpers.FormatCurrency(t.amount).value + " transaction from "
                         + t.fromNames[0] + "'s " + t.fromType + " node to " + t.toNames[0] + "'s "
                         + t.toType + " node.\nScheduled for " + calendar(t.processOn / 1000)
                         + ".\nCurrent status: " + t.statusNote + ".")
  {
    match Helpers.FormatCurrency(t.amount)
    case Failure(e) => Failure(e)
    case Success(amount) =>
      if t.fromNames == [] || t.toNames == [] then Failure(Helpers.IndexFailure())
      else match Helpers.TimestampToString(t.processOn, calendar)
      case Failure(e) => Failure(e)
      case Success(when) =>
        var r := "Created $" + (amount + " transaction from " + t.fromNames[0] + "'s " + t.fromType
          + " node to " + t.toNames[0] + "'s " + t.toType + " node.\nScheduled for " + when
          + ".\nCurrent status: " + t.statusNote + ".");
        assert r[..9] == "Created $";
        Success(r)
  }

  /**
   * `send`: the `from` node is looked up before the amount or the recipient
   * is read; an error from `Transaction.create` is printed and swallowed, and
   * the unassigned `transaction` then raises `UnboundLocalError`.
   */
  function Send(p: Provider, command: string): (r: Response)
    ensures WordAfter(command, "from").Failure? <==> r.calls == []
    ensures r.calls != [] ==> r.calls[0] == GetNode(WordAfter(command, "from").value)
    ensures |r.calls| <= 2
    ensures |r.calls| == 2 ==> (SendArgsOf(command).Success? && r.calls[1].CreateTransaction?
                                && r.calls[1].args == SendArgsOf(command).value)
  {
    match WordAfter(command, "from")
    case Failure(e) => Response(Failure(PythonRaised(e)), [])
    case Success(fromId) =>
      match p.nodeById(fromId)
      case Failure(m) => Response(Failure(ProviderRaised(m)), [GetNode(fromId)])
      case Success(fromNode) =>
        match SendArgsOf(command)
        case Failure(e) => Response(Failure(PythonRaised(e)), [GetNode(fromId)])
        case Success(args) =>
          var calls := [GetNode(fromId), CreateTransaction(fromId, args)];
          match p.createTransaction(fromNode, args)
          case Failure(_) => Response(Failure(PythonRaised(UnboundTransaction)), calls)
          case Success(t) =>
            match Created(t, p.calendar)
            case Failure(e) => Response(Failure(PythonRaised(e)), calls)
            case Success(text) => Response(Success(Some(text)), calls)
  }

  /** A provider error from `Transaction.create` never reaches the reply: `send` raises `UnboundLocalError` instead. */
  lemma SendHidesCreateError(p: Provider, command: string)
    requires WordAfter(command, "from").Success?
    requires p.nodeById(WordAfter(command, "from").value).Success? && SendArgsOf(command).Success?
    requires p.createTransaction(p.nodeById(WordAfter(command, "from").value).value, SendArgsOf(command).value).Failure?
    ensures Send(p, command).result == Failure(PythonRaised(UnboundTransaction))
  {
  }

  /**
   * The test for `process_in` is a substring test for `on`, but its value is
   * read after `in`: a command that contains `on` inside any word and has no
   * word `in` raises `ValueError` before anything is created.
   */
  lemma SendOnWithoutIn(p: Provider, command: string)
    requires WordAfter(command, "from").Success? && p.nodeById(WordAfter(command, "from").value).Success?
    requires Contains(command, "on") && "in" !in SplitWs(command)
    ensures Send(p, command).result.Failure? && Send(p, command).result.error.PythonRaised?
    ensures Send(p, command).result.error.exception.kind == ValueError || WordAfter(command, "send").Failure?
            || WordAfter(command, "to").Failure?
    ensures Send(p, command).calls == [GetNode(WordAfter(command, "from").value)]
  {
  }

  /** With all its words present, `send` passes the words after `send` and `to` and the fixed `SYNAPSE-US`, `USD` and address. */
  lemma SendCreates(p: Provider, command: string)
    requires WordAfter(command, "from").Success? && p.nodeById(WordAfter(command, "from").value).Success?
    requires SendArgsOf(command).Success?
    ensures var args := SendArgsOf(command).value;
            Send(p, command).calls == [GetNode(WordAfter(command, "from").value),
                                       CreateTransaction(WordAfter(command, "from").value, args)]
            && args.amount == WordAfter(command, "send").value && args.toId == WordAfter(command, "to").value
            && args.toType == "SYNAPSE-US" && args.currency == "USD"
    ensures var created := p.createTransaction(p.nodeById(WordAfter(command, "from").value).value, SendArgsOf(command).value);
            && (created.Success? && Created(created.value, p.calendar).Success? ==>
                  Send(p, command).result == Success(Some(Created(created.value, p.calendar).value)))
            && (created.Success? && Created(created.value, p.calendar).Failure? ==>
                  Send(p, command).result == Failure(PythonRaised(Created(created.value, p.calendar).error)))
  {
  }
}
