# redis-rs command engine, modelled in Dafny

This project models the command engine of redis-rs, a small Redis-like key-value
server written in Rust. The engine keeps three keyspaces:

- string values (`key_value_pairs`);
- lists (`lists`);
- hashes (`hashes`).

`Executor::exec` takes one command line and splits it on single spaces. The first
token is the command name, compared case-sensitively. The dispatcher sorts the name
into one of four families, or rejects it as unknown. The remaining tokens go to the
family's handler, together with that family's keyspace only.

The model covers:

- the tokenizer and the dispatcher, including the inner per-family matches whose
  `panic!` arms must be unreachable;
- the stateless commands `echo`, `ping` and `flushall`;
- the list handlers `llen`, `lpush` and `lrem`.

Every operation is a pure function. A handler that changes a keyspace returns a
`Step(result, state)`: its reply (`Ok(text)` or `Err(text)`) and the new keyspace.
A stored `RedisValue` is modelled as its text.

Modules, one file each:

- `Results` holds the reply, step and option types.
- `Keyspace` holds the three keyspaces and the `Context` that groups them.
- `Decimal` renders counts as decimal text (`to_string`, `format!`) and parses an
  `i32` argument (`str::parse::<i32>`).
- `Occurrences` holds the generic sequence operations behind `lrem`:
  - counting;
  - removing every occurrence of a value, the first n of them, or the last n of them;
  - reversing;
  - the two scanning loops exactly as the source writes them, proved equal to the
    functional definitions.
- `Tokenizer` is `str::split(" ")` and its inverse, joining.
- `OneOff` holds `echo` and `ping`.
- `ListCommand` holds `llen`, `lpush` and `lrem`, and the properties of `lrem`.
- `Executor` holds the routing table, the per-family dispatchers, `exec`, and
  sessions of several lines.
- `Scenarios` replays the parts of the tests in `src/lib.rs` that use only modelled commands:
  - the `echo` and `ping` lines of `commands_execute_properly`;
  - `lrem_works_as_expected`, from the list its `rpush` calls build or from four `lpush` calls;
  - `lpush_works_as_expected`.

Notes on the code as written:

- Redis's LPUSH, whose documentation `lpush` links at
  src/redis_engine/command_execution/list_command.rs:29, prepends. In this revision
  `lpush` appends the values to the end of the list, in argument order, and `Lpush`
  does the same.
- The arity errors of `lpush` and `lrem` name `"llen"`. The error of `ping` with
  two or more arguments names `"echo"`. These messages are kept verbatim.
- The `lrem` test builds its list with `rpush`, which is not part of this model.
  `Scenarios.LremFromTail` starts from the list those pushes build. Because `lpush`
  appends in this revision, four `lpush` calls build that same list, and
  `Scenarios.PushesThenLremFromTail` runs `lrem` on the state they leave.

## Model

| member | source | states |
|---|---|---|
| OneOff.Echo | src/redis_engine/command_execution/one_off_command.rs:4-12 | `echo` succeeds exactly when given one argument, and then replies with that argument unchanged. With no argument it fails with "Too few arguments for \"echo\"", and with more than one it fails with "Too many arguments for \"echo\"". |
| OneOff.Ping | src/redis_engine/command_execution/one_off_command.rs:14-22 | `ping` with no argument replies "pong". With one argument, and with two or more, it gives exactly what `echo` gives. It fails exactly when given two or more arguments. |
| ListCommand.Llen | src/redis_engine/command_execution/list_command.rs:12-26 | `llen` succeeds exactly when given one argument; otherwise it gives the arity error. On success the reply is the decimal length of the list at that key. A missing key counts as empty, so it replies "0" and never fails. |
| ListCommand.Lpush | src/redis_engine/command_execution/list_command.rs:28-49 | With fewer than two arguments, `lpush` fails and leaves the keyspace unchanged. Otherwise it replies with the number of values given. The key now exists and holds the old list (empty if the key was missing) followed by the values in argument order. Every other key keeps its list. |
| ListCommand.Lrem | src/redis_engine/command_execution/list_command.rs:51-117 | With fewer than three arguments, `lrem` fails with the map unchanged. A count that is not an i32 fails, even when the key is missing, with the map unchanged. A missing key replies "0" and is not created. Otherwise only that key changes: its list becomes the list with the selected occurrences removed, and the reply is the number removed, min(\|count\|, occurrences) (all occurrences when count is 0). |
| ListCommand.RemovalCount | src/redis_engine/command_execution/list_command.rs:78-112 | The number of occurrences removed never exceeds the number present. With count 0 it is all of them. Otherwise it is either all of them or exactly \|count\|, and never more than \|count\|, which makes it min(\|count\|, occurrences). |
| ListCommand.RemoveOccurrences | src/redis_engine/command_execution/list_command.rs:78-112 | The list shrinks by exactly the removal count, and the number of elements equal to the value drops by that same count. |
| ListCommand.LremHeadCut | src/redis_engine/command_execution/list_command.rs:100-112 | With count > 0, cut the list into a front part and a back part so that the front part holds exactly the number of occurrences removed. Then every occurrence in the front part is removed and the back part is untouched. So the occurrences removed are the first ones, counted from the head. |
| ListCommand.LremTailCut | src/redis_engine/command_execution/list_command.rs:83-99 | With count < 0, cut the list into a front part and a back part so that the back part holds exactly the number of occurrences removed. Then the front part is untouched and every occurrence in the back part is removed. So the occurrences removed are the last ones, counted from the tail. |
| ListCommand.LremZeroLeavesNoMatch | src/redis_engine/command_execution/list_command.rs:78-82 | After `lrem` with count 0, no element equal to the value remains. |
| ListCommand.RemoveOccurrencesKeepsOrder | src/redis_engine/command_execution/list_command.rs:78-112 | For every count, the surviving elements are a subsequence of the original list, so they keep their relative order. |
| ListCommand.RemoveOccurrencesKeepsOthers | src/redis_engine/command_execution/list_command.rs:78-112 | For every count, every value other than the one removed keeps its exact number of copies. Only matching elements are ever removed. |
| ListCommand.HeadScanKeepsOthers | src/redis_engine/command_execution/list_command.rs:100-112 | The head scan keeps every copy of every other value. |
| ListCommand.TailScanKeepsOthers | src/redis_engine/command_execution/list_command.rs:83-99 | The tail scan keeps every copy of every other value. |
| ListCommand.LremReplyIsLlenDrop | src/redis_engine/command_execution/list_command.rs:73-116 | For a successful `lrem` the length never grows, and the reply equals `llen` of that key before the call minus `llen` after it. |
| ListCommand.RemoveOccurrencesAsWritten | src/redis_engine/command_execution/list_command.rs:83-99 | Models the source's 32-bit negation of the count. For every i32 count other than i32::MIN it removes exactly what `RemoveOccurrences` removes. |
| ListCommand.LremMinCountRemovesNothing | src/redis_engine/command_execution/list_command.rs:84-93 | With count i32::MIN the code as written removes nothing. If the value occurs in the list, the intended tail scan does change the list. |
| Occurrences.ScanFromHead | src/redis_engine/command_execution/list_command.rs:100-112 | The head loop as written computes exactly the removal of the first n matches. The loop keeps each element unless budget is left and it matches, spending one unit of budget per skipped element. |
| Occurrences.ScanFromTail | src/redis_engine/command_execution/list_command.rs:83-99 | The tail loop as written computes exactly the removal of the last n matches. The loop walks the list backwards collecting survivors, then reverses them. |
| Occurrences.RemoveAllCounts | src/redis_engine/command_execution/list_command.rs:78-82 | `retain` with a not-equal test removes exactly the occurrences of the value: the length drops by their number, and none remains. |
| Occurrences.RemoveFirstCounts | src/redis_engine/command_execution/list_command.rs:100-112 | The head scan with budget n removes min(n, occurrences) elements, all equal to the value. |
| Occurrences.RemoveLastCounts | src/redis_engine/command_execution/list_command.rs:83-99 | The tail scan with budget n removes min(n, occurrences) elements, all equal to the value. |
| Occurrences.RemoveFirstConcat | src/redis_engine/command_execution/list_command.rs:100-112 | When the budget is spent exactly on the occurrences in a front part a, the head scan of a + b removes all of them from a and leaves b untouched. |
| Occurrences.RemoveLastConcat | src/redis_engine/command_execution/list_command.rs:83-99 | When the budget is spent exactly on the occurrences in a back part b, the tail scan of a + b leaves a untouched and removes all of them from b. |
| Decimal.NatToString | src/redis_engine/command_execution/list_command.rs:24 | A length is rendered as a non-empty string of decimal digits with no leading zero, and it is a single digit exactly for values below 10. |
| Decimal.NatToStringInjective | src/redis_engine/command_execution/list_command.rs:116 | Distinct counts render to distinct reply texts, so the reply of `lrem` determines how many elements were removed. |
| Decimal.ParseI32 | src/redis_engine/command_execution/list_command.rs:62-66 | A parsed count lies in the i32 range. Only text of the form optional sign followed by at least one digit is accepted. `ParseI32OfSignedDigits` states the converse and the parsed value. |
| Decimal.ParseI32OfSignedDigits | src/redis_engine/command_execution/list_command.rs:62-66 | The converse of `ParseI32`'s contract: an optional '+' or '-' followed by at least one digit is accepted exactly when its signed value is an i32, and it parses to that value. Leading zeros are allowed. |
| Decimal.ParseI32NonCanonical | src/redis_engine/command_execution/list_command.rs:62-66 | "+5", "007" and "-0" parse to 5, 7 and 0. The empty text, a lone "-", "+-1" and "1 " are rejected. |
| Decimal.ParseOfIntToString | src/redis_engine/command_execution/list_command.rs:62-66 | Parsing the decimal rendering of any integer gives back that integer exactly when it is in the i32 range, and fails otherwise. |
| Decimal.WrappingNeg32 | src/redis_engine/command_execution/list_command.rs:84 | Negating an i32 in two's complement stays in range and agrees with true negation modulo 2^32. Every value other than i32::MIN is negated exactly, and i32::MIN wraps to itself. |
| Tokenizer.Split | src/redis_engine/mod.rs:163-165 | Splitting on a character always yields at least one piece. No piece holds the separator, and there is exactly one more piece than there are separators in the line. |
| Tokenizer.JoinSplit | src/redis_engine/mod.rs:163-165 | Joining the pieces back with the separator gives the original line, so consecutive spaces become empty arguments rather than being lost. |
| Tokenizer.SplitJoin | src/redis_engine/mod.rs:163-165 | Any non-empty sequence of separator-free pieces is recovered exactly by splitting their join. |
| Executor.Tokenize | src/redis_engine/mod.rs:163-165 | The name followed by the arguments, joined with single spaces, is the original line. Neither the name nor any argument holds a space. |
| Executor.TokenizeJoin | src/redis_engine/mod.rs:163-165 | Tokenizing a line built from a space-free name and space-free arguments gives back that name and those arguments. |
| Executor.Classify | src/redis_engine/mod.rs:167-180 | The outer match sends a name to a family exactly when the name is in that family's name set. It reports the name as unknown exactly when the name is in none of the four sets. |
| Executor.ExecOneOff | src/redis_engine/mod.rs:104-117 | The inner one-off match accepts exactly echo, ping and flushall. `echo` goes to `Echo`, `ping` goes to `Ping`, and `flushall` replies "(nil)" whatever its arguments. |
| Executor.ExecKvp | src/redis_engine/mod.rs:119-131 | The inner string-keyspace match accepts exactly the eight names that the outer match routes to it. Each goes to the string-keyspace handler, which is given only that keyspace. |
| Executor.ExecList | src/redis_engine/mod.rs:133-145 | The inner list match accepts exactly the eight list names. `llen`, `lpush` and `lrem` go to their handlers, and `llen` leaves the lists unchanged. The other five go to the list handler parameter, which is given only the lists. |
| Executor.ExecHash | src/redis_engine/mod.rs:147-160 | The inner hash match accepts exactly the nine hash names. Each goes to the hash handler, which is given only the hash keyspace. |
| Executor.Dispatch | src/redis_engine/mod.rs:167-179 | Dispatch never reaches a `panic!` arm. A one-off command replies with what `exec_one_off` gives and changes nothing. A string, list or hash command replies with what its family's dispatcher gives. Only that family's keyspace takes the new state; the other two keyspaces are unchanged. |
| Executor.Exec | src/redis_engine/mod.rs:162-182 | Executing any line whatsoever never reaches a `panic!` arm. |
| Executor.UnknownNameIsRejected | src/redis_engine/mod.rs:180 | A command whose name is in none of the four families fails with "Unknown command \"name\" provided." and leaves every keyspace unchanged. |
| Executor.RoutingIsTotal | src/redis_engine/mod.rs:104-180 | For each family, the outer match routes a name there exactly when that family's inner match accepts it. |
| Executor.ListSessionKeepsOtherKeyspaces | src/redis_engine/mod.rs:133-145 | Any session made only of list commands, whatever the handlers not modelled here do, leaves the string and hash keyspaces as they were. This holds in the model, which has no `expire` timer; in the running program an earlier `expire` can still delete a string key during the session. |
| Executor.UpperCaseNameIsUnknown | src/redis_engine/mod.rs:167-180 | `ECHO hi` is an unknown command, because names are compared case-sensitively, and the context is unchanged. |
| Executor.DoubleSpaceMakesEmptyArgument | src/redis_engine/mod.rs:163-165 | `echo  hi`, with two spaces, hands `echo` an empty argument and "hi", so it fails with "Too many arguments". |
| Scenarios.EchoHi | src/lib.rs:8-22 | `echo hi` replies "hi". |
| Scenarios.PingAlone | src/lib.rs:9-23 | `ping` replies "pong". |
| Scenarios.PingAsd | src/lib.rs:10-24 | `ping asd` replies "asd". |
| Scenarios.PushOne | src/redis_engine/command_execution/list_command.rs:28-49 | `lpush list v` replies "1" and appends v to the list at "list". |
| Scenarios.PushTwo | src/redis_engine/command_execution/list_command.rs:28-49 | Two single-value pushes reply "1" each and append both values in order. |
| Scenarios.FourPushes | src/redis_engine/command_execution/list_command.rs:28-49 | Four single-value pushes on a fresh keyspace reply "1" each and build the list of the four values in order. |
| Scenarios.FourPushesThenLlen | src/lib.rs:185-193 | Four `lpush` calls on a fresh list reply "1" each and build the list in argument order, and `llen list` then replies "4". |
| Scenarios.SampleTailRemoval | src/lib.rs:127-132 | In [hello, foo, hello, hello], removing two "hello"s from the tail leaves [hello, foo]. |
| Scenarios.LremFromTail | src/lib.rs:127-133 | `lrem list -2 hello` on that list replies "2" and leaves [hello, foo], and `llen list` then replies "2". |
| Scenarios.PushesThenLremFromTail | src/lib.rs:127-132 | Four `lpush` calls of hello, foo, hello and hello build the list the `lrem` test starts from. `lrem list -2 hello` on that state replies "2" and leaves [hello, foo]. |

## Left out

- `setup_executor` and `ExecutionContext::from_file_contents` (src/redis_engine/mod.rs:35-102) are left out. They read and write the dump file and parse JSON through helpers that are not part of this model.
- The string-keyspace and hash handlers are left out because their source is not part of this model. `lindex`, `lpop`, `rpop`, `rpush` and `lset` are left out for the same reason. Each is a total-function parameter of the dispatcher (`Executor.Handlers`) that receives only its own keyspace, so the routing and frame properties hold for any implementation of them.
- `expire`'s delayed deletion and the `Arc<Mutex<…>>` locking are left out. Each handler call is modelled as one atomic update of a plain map, and `exec`'s `async` plays no part.
- The `println!` in `lrem` and the debug handler `to_be_deleted` are left out because they have no effect on replies or state.
- `src/main.rs` is a demo driver and is left out. `src/lib.rs` holds only tests. The tests of the string keyspace, of renaming, and of `lindex`, `lpop`, `rpop`, `rpush` and `lset` drive handlers that are parameters here, and have no scenario. The same holds for `basic_list_operations_work_properly` and the string-keyspace lines of `commands_execute_properly`.
- A `RedisValue` is assumed to render back, through `to_string()`, to the text it was built from. `lrem` compares elements through `to_string()`, and `RedisValue` lives in `util`, which is not part of this model. Under that assumption, comparing the stored texts is the same comparison.
- Executor.Run: its contract states only that there is one reply per line. Sessions are used only for the frame property of `ListSessionKeepsOtherKeyspaces`.
- ListCommand.Lrem: uses the unbounded negation of the count. For an i32::MIN count the source either panics (debug build) or wraps (release build). The release behaviour is modelled separately, as the finding below.

## Findings

| source | as written | input that shows it | evidently intended | confidence | as-written member | corrected member |
|---|---|---|---|---|---|---|
| src/redis_engine/command_execution/list_command.rs:84 | `let mut to_remove = -count;` negates an `i32`. For `i32::MIN` this overflows: a debug build panics, and a release build wraps to `i32::MIN` itself, so `to_remove > 0` never holds. | `lrem list -2147483648 hello` on [hello] | a negative count removes up to \|count\| occurrences from the tail, which here means every "hello" | not executed | ListCommand.LremMinCountRemovesNothing | ListCommand.RemoveOccurrences |
