/**
 * The command dispatcher `Executor::exec`: split the line on single spaces, take
 * the first token as a case-sensitive command name, classify it into one of four
 * families (or reject it), and hand the remaining tokens to that family's handler
 * together with that family's keyspace only.
 */
module Executor {
  import opened Results
  import opened Keyspace
  import Tokenizer
  import OneOff
  import ListCommand

  /** A command line after tokenizing: the name and its positional arguments. */
  datatype CommandLine = CommandLine(name: string, args: seq<string>)

  /** The routing decision of the outer match. */
  datatype Route = OneOffRoute | KvpRoute | ListRoute | HashRoute | Unknown(name: string)

  const OneOffNames: set<string> := {"echo", "ping", "flushall"}
  const KvpNames: set<string> := {"set", "get", "key", "type", "del", "unlink", "expire", "rename"}
  const ListNames: set<string> := {"llen", "lrem", "lindex", "lpop", "rpop", "lpush", "rpush", "lset"}
  const HashNames: set<string> := {"hget", "hexists", "hdel", "hgetall", "hkeys", "hlen", "hmset", "hset", "hvals"}

  /** The error text `exec` gives for a name outside every family. */
  function UnknownCommand(name: string): string {
    "Unknown command \"" + name + "\" provided."
  }

  /**
   * The handlers whose source is not part of this model: every kvp and hash
   * command, and the list commands other than llen, lpush and lrem. Each receives
   * the command name, the arguments and its own keyspace only.
   */
  datatype Handlers = Handlers(
    kvp: (string, seq<string>, KvSpace) -> Step<KvSpace>,
    list: (string, seq<string>, ListSpace) -> Step<ListSpace>,
    hash: (string, seq<string>, HashSpace) -> Step<HashSpace>)

  /**
   * `command.split(" ")`: the first piece is the name, the rest the arguments.
   * Nothing is lost, and no token holds a space.
   */
  function Tokenize(line: string): (c: CommandLine)
    ensures Tokenizer.Join([c.name] + c.args, ' ') == line
    ensures ' ' !in c.name
    ensures forall i :: 0 <= i < |c.args| ==> ' ' !in c.args[i]
  {
    var words := Tokenizer.Split(line, ' ');
    Tokenizer.JoinSplit(line, ' ');
    assert [words[0]] + words[1..] == words;
    CommandLine(words[0], words[1..])
  }

  /** The outer match of `exec`: the family a name belongs to, by exact, case-sensitive comparison. */
  function Classify(name: string): (r: Route)
    ensures r == OneOffRoute <==> name in OneOffNames
    ensures r == KvpRoute <==> name in KvpNames
    ensures r == ListRoute <==> name in ListNames
    ensures r == HashRoute <==> name in HashNames
    ensures r.Unknown? <==> name !in OneOffNames + KvpNames + ListNames + HashNames
    ensures r.Unknown? ==> r.name == name
  {
    match name
    case "echo" | "ping" | "flushall" => OneOffRoute
    case "set" | "get" | "key" | "type" | "del" | "unlink" | "expire" | "rename" => KvpRoute
    case "llen" | "lrem" | "lindex" | "lpop" | "rpop" | "lpush" | "rpush" | "lset" => ListRoute
    case "hget" | "hexists" | "hdel" | "hgetall" | "hkeys" | "hlen" | "hmset" | "hset" | "hvals" => HashRoute
    case _ => Unknown(name)
  }

  /** `exec_one_off`; None stands for its `panic!` arm. */
  function ExecOneOff(name: string, args: seq<string>): (r: Option<Result>)
    ensures r.Some? <==> name in OneOffNames
    ensures name == "echo" ==> r == Some(OneOff.Echo(args))
    ensures name == "ping" ==> r == Some(OneOff.Ping(args))
    ensures name == "flushall" ==> r == Some(Ok("(nil)"))
  {
    match name
    case "echo" => Some(OneOff.Echo(args))
    case "ping" => Some(OneOff.Ping(args))
    case "flushall" => Some(Ok("(nil)"))
    case _ => None
  }

  /** `exec_kvp_command`; every kvp handler is a parameter. None stands for the `panic!` arm. */
  function ExecKvp(h: Handlers, name: string, args: seq<string>, kvps: KvSpace): (r: Option<Step<KvSpace>>)
    ensures r.Some? <==> name in KvpNames
    ensures r.Some? ==> r.value == h.kvp(name, args, kvps)
  {
    match name
    case "set" | "get" | "key" | "type" | "del" | "unlink" | "expire" | "rename" => Some(h.kvp(name, args, kvps))
    case _ => None
  }

  /**
   * `exec_list_command`: llen, lrem and lpush are modelled here; the other list
   * handlers are a parameter. None stands for the `panic!` arm.
   */
  function ExecList(h: Handlers, name: string, args: seq<string>, lists: ListSpace): (r: Option<Step<ListSpace>>)
    ensures r.Some? <==> name in ListNames
    ensures name == "llen" ==> r == Some(Step(ListCommand.Llen(lists, args), lists))
    ensures name == "lpush" ==> r == Some(ListCommand.Lpush(lists, args))
    ensures name == "lrem" ==> r == Some(ListCommand.Lrem(lists, args))
    ensures name in ListNames - {"llen", "lpush", "lrem"} ==> r == Some(h.list(name, args, lists))
  {
    match name
    case "llen" => Some(Step(ListCommand.Llen(lists, args), lists))
    case "lrem" => Some(ListCommand.Lrem(lists, args))
    case "lpush" => Some(ListCommand.Lpush(lists, args))
    case "lindex" | "lpop" | "rpop" | "rpush" | "lset" => Some(h.list(name, args, lists))
    case _ => None
  }

  /** `exec_hash_command`; every hash handler is a parameter. None stands for the `panic!` arm. */
  function ExecHash(h: Handlers, name: string, args: seq<string>, hashes: HashSpace): (r: Option<Step<HashSpace>>)
    ensures r.Some? <==> name in HashNames
    ensures r.Some? ==> r.value == h.hash(name, args, hashes)
  {
    match name
    case "hget" | "hexists" | "hdel" | "hgetall" | "hkeys" | "hlen" | "hmset" | "hset" | "hvals" => Some(h.hash(name, args, hashes))
    case _ => None
  }

  /**
   * The match of `Executor::exec` on a tokenized line. None would mean a `panic!`
   * arm was reached; the contract shows it never is. For a known name the family's
   * dispatcher answers, and only that family's keyspace can change.
   */
  function Dispatch(h: Handlers, ctx: Context, c: CommandLine): (r: Option<Step<Context>>)
    ensures r.Some?
    ensures c.name in OneOffNames ==> r == Some(Step(ExecOneOff(c.name, c.args).value, ctx))
    ensures c.name in KvpNames ==>
      var s := ExecKvp(h, c.name, c.args, ctx.kvps).value;
      r == Some(Step(s.result, Context(s.state, ctx.lists, ctx.hashes)))
    ensures c.name in ListNames ==>
      var s := ExecList(h, c.name, c.args, ctx.lists).value;
      r == Some(Step(s.result, Context(ctx.kvps, s.state, ctx.hashes)))
    ensures c.name in HashNames ==>
      var s := ExecHash(h, c.name, c.args, ctx.hashes).value;
      r == Some(Step(s.result, Context(ctx.kvps, ctx.lists, s.state)))
  {
    match Classify(c.name)
    case OneOffRoute =>
      (match ExecOneOff(c.name, c.args)
       case Some(reply) => Some(Step(reply, ctx))
       case None => None)
    case KvpRoute =>
      (match ExecKvp(h, c.name, c.args, ctx.kvps)
       case Some(s) => Some(Step(s.result, ctx.(kvps := s.state)))
       case None => None)
    case ListRoute =>
      (match ExecList(h, c.name, c.args, ctx.lists)
       case Some(s) => Some(Step(s.result, ctx.(lists := s.state)))
       case None => None)
    case HashRoute =>
      (match ExecHash(h, c.name, c.args, ctx.hashes)
       case Some(s) => Some(Step(s.result, ctx.(hashes := s.state)))
       case None => None)
    case Unknown(_) => Some(Step(Err(UnknownCommand(c.name)), ctx))
  }

  /** `Executor::exec`: tokenize the line, then dispatch; it never reaches a `panic!` arm. */
  function Exec(h: Handlers, ctx: Context, line: string): (r: Option<Step<Context>>)
    ensures r.Some?
  {
    Dispatch(h, ctx, Tokenize(line))
  }

  /** A name outside the four families fails with an error naming it, and changes nothing. */
  lemma UnknownNameIsRejected(h: Handlers, ctx: Context, c: CommandLine)
    requires c.name !in OneOffNames && c.name !in KvpNames && c.name !in ListNames && c.name !in HashNames
    ensures Dispatch(h, ctx, c) == Some(Step(Err(UnknownCommand(c.name)), ctx))
  {
  }

  /**
   * Routing is total: a name the outer match sends to a family is exactly a name
   * that family's inner match accepts, so no `panic!` arm is reachable.
   */
  lemma RoutingIsTotal(h: Handlers, name: string, args: seq<string>, ctx: Context)
    ensures Classify(name) == OneOffRoute <==> ExecOneOff(name, args).Some?
    ensures Classify(name) == KvpRoute <==> ExecKvp(h, name, args, ctx.kvps).Some?
    ensures Classify(name) == ListRoute <==> ExecList(h, name, args, ctx.lists).Some?
    ensures Classify(name) == HashRoute <==> ExecHash(h, name, args, ctx.hashes).Some?
  {
  }

  // ---------------------------------------------------------------------------
  // Sessions: several lines in a row
  // ---------------------------------------------------------------------------

  /** The replies to a sequence of lines and the context they leave behind. */
  datatype Transcript = Transcript(replies: seq<Result>, final: Context)

  function Run(h: Handlers, ctx: Context, lines: seq<string>): (t: Transcript)
    ensures |t.replies| == |lines|
    decreases |lines|
  {
    if |lines| == 0 then Transcript([], ctx)
    else
      var first := Exec(h, ctx, lines[0]).value;
      var rest := Run(h, first.state, lines[1..]);
      Transcript([first.result] + rest.replies, rest.final)
  }

  predicate IsListCommand(line: string) {
    Tokenize(line).name in ListNames
  }

  /** A session of list commands leaves the string and hash keyspaces as they were. */
  lemma {:induction false} ListSessionKeepsOtherKeyspaces(h: Handlers, ctx: Context, lines: seq<string>)
    requires forall i :: 0 <= i < |lines| ==> IsListCommand(lines[i])
    ensures Run(h, ctx, lines).final.kvps == ctx.kvps
    ensures Run(h, ctx, lines).final.hashes == ctx.hashes
    decreases |lines|
  {
    if |lines| > 0 {
      var first := Exec(h, ctx, lines[0]).value;
      assert IsListCommand(lines[0]);
      ListSessionKeepsOtherKeyspaces(h, first.state, lines[1..]);
    }
  }

  /** Tokenizing inverts joining: space-free tokens come back exactly. */
  lemma TokenizeJoin(c: CommandLine)
    requires ' ' !in c.name
    requires forall i :: 0 <= i < |c.args| ==> ' ' !in c.args[i]
    ensures Tokenize(Tokenizer.Join([c.name] + c.args, ' ')) == c
  {
    var words := [c.name] + c.args;
    assert forall i :: 0 <= i < |words| ==> ' ' !in words[i] by {
      forall i | 0 <= i < |words| ensures ' ' !in words[i] {
        if i > 0 {
          assert words[i] == c.args[i - 1];
        }
      }
    }
    Tokenizer.SplitJoin(words, ' ');
    assert words[1..] == c.args;
  }

  /**
   * Names are compared case-sensitively: an upper-case spelling of a known name
   * is unknown, and the context is left as it was.
   */
  lemma UpperCaseNameIsUnknown(h: Handlers, ctx: Context)
    ensures Exec(h, ctx, "ECHO hi") == Some(Step(Err(UnknownCommand("ECHO")), ctx))
  {
    TokenizeJoin(CommandLine("ECHO", ["hi"]));
    assert Tokenizer.Join(["hi"], ' ') == "hi";
    assert Tokenizer.Join(["ECHO", "hi"], ' ') == "ECHO hi";
    UnknownNameIsRejected(h, ctx, CommandLine("ECHO", ["hi"]));
  }

  /** Two spaces in a row delimit an empty argument, so `echo` sees two arguments and fails. */
  lemma DoubleSpaceMakesEmptyArgument(h: Handlers, ctx: Context)
    ensures Exec(h, ctx, "echo  hi") == Some(Step(Err(OneOff.TooManyForEcho), ctx))
  {
    TokenizeJoin(CommandLine("echo", ["", "hi"]));
    assert Tokenizer.Join(["hi"], ' ') == "hi";
    assert Tokenizer.Join(["", "hi"], ' ') == " hi";
    assert Tokenizer.Join(["echo", "", "hi"], ' ') == "echo  hi";
  }
}
