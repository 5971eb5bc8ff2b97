/**
 * The command sequences the repository's own tests walk through, replayed on the
 * model. Lines are given already tokenized where the tokenizer is not the point.
 */
module Scenarios {
  import opened Results
  import opened Keyspace
  import opened Decimal
  import opened Occurrences
  import Tokenizer
  import ListCommand
  import opened Executor

  /** `echo hi` replies "hi" on any context and changes nothing. */
  lemma EchoHi(h: Handlers, ctx: Context)
    ensures Exec(h, ctx, "echo hi") == Some(Step(Ok("hi"), ctx))
  {
    TokenizeJoin(CommandLine("echo", ["hi"]));
    assert Tokenizer.Join(["hi"], ' ') == "hi";
    assert Tokenizer.Join(["echo", "hi"], ' ') == "echo hi";
  }

  /** `ping` replies "pong". */
  lemma PingAlone(h: Handlers, ctx: Context)
    ensures Exec(h, ctx, "ping") == Some(Step(Ok("pong"), ctx))
  {
    TokenizeJoin(CommandLine("ping", []));
    assert Tokenizer.Join(["ping"], ' ') == "ping";
  }

  /** `ping asd` replies "asd", as `echo asd` would. */
  lemma PingAsd(h: Handlers, ctx: Context)
    ensures Exec(h, ctx, "ping asd") == Some(Step(Ok("asd"), ctx))
  {
    TokenizeJoin(CommandLine("ping", ["asd"]));
    assert Tokenizer.Join(["asd"], ' ') == "asd";
    assert Tokenizer.Join(["ping", "asd"], ' ') == "ping asd";
  }

  /** One single-value `lpush list v` replies "1" and appends v to what "list" held. */
  lemma PushOne(lists: ListSpace, value: string, before: seq<Value>)
    requires ListCommand.ListOrEmpty(lists, "list") == before
    ensures ListCommand.Lpush(lists, ["list", value]) == Step(Ok("1"), lists["list" := before + [value]])
  {
    var args := ["list", value];
    assert args[0] == "list" && args[1..] == [value];
    assert NatToString(1) == "1";
  }

  /** Two single-value pushes onto the list that holds before. */
  lemma PushTwo(lists: ListSpace, before: seq<Value>, a: string, b: string)
    requires ListCommand.ListOrEmpty(lists, "list") == before
    ensures var s1 := ListCommand.Lpush(lists, ["list", a]);
      var s2 := ListCommand.Lpush(s1.state, ["list", b]);
      && s1.result == Ok("1") && s2.result == Ok("1")
      && s2.state == lists["list" := before + [a, b]]
  {
    PushOne(lists, a, before);
    var m1 := lists["list" := before + [a]];
    PushOne(m1, b, before + [a]);
    assert before + [a] + [b] == before + [a, b];
  }

  /** Four single-value `lpush` calls on a fresh keyspace reply "1" each and build [a, b, c, d]. */
  lemma FourPushes(a: string, b: string, c: string, d: string)
    ensures var s1 := ListCommand.Lpush(map[], ["list", a]);
      var s2 := ListCommand.Lpush(s1.state, ["list", b]);
      var s3 := ListCommand.Lpush(s2.state, ["list", c]);
      var s4 := ListCommand.Lpush(s3.state, ["list", d]);
      && s1.result == Ok("1") && s2.result == Ok("1") && s3.result == Ok("1") && s4.result == Ok("1")
      && s4.state == map["list" := [a, b, c, d]]
  {
    var m0: ListSpace := map[];
    PushTwo(m0, [], a, b);
    var m2: ListSpace := map["list" := [a, b]];
    assert [] + [a, b] == [a, b];
    assert m0["list" := [] + [a, b]] == m2;
    PushTwo(m2, [a, b], c, d);
    assert [a, b] + [c, d] == [a, b, c, d];
    assert m2["list" := [a, b, c, d]] == map["list" := [a, b, c, d]];
  }

  /**
   * The `lpush` test: four pushes of hello, foo, hello2 and hello3 reply "1" each,
   * and `llen list` then replies "4".
   */
  lemma FourPushesThenLlen()
    ensures var s1 := ListCommand.Lpush(map[], ["list", "hello"]);
      var s2 := ListCommand.Lpush(s1.state, ["list", "foo"]);
      var s3 := ListCommand.Lpush(s2.state, ["list", "hello2"]);
      var s4 := ListCommand.Lpush(s3.state, ["list", "hello3"]);
      && s1.result == Ok("1") && s2.result == Ok("1") && s3.result == Ok("1") && s4.result == Ok("1")
      && s4.state == map["list" := ["hello", "foo", "hello2", "hello3"]]
      && ListCommand.Llen(s4.state, ["list"]) == Ok("4")
  {
    FourPushes("hello", "foo", "hello2", "hello3");
    assert NatToString(4) == "4";
  }

  /** In [hello, foo, hello, hello] a tail scan for two "hello"s leaves [hello, foo]. */
  lemma SampleTailRemoval()
    ensures var xs: seq<Value> := ["hello", "foo", "hello", "hello"];
      && Count(xs, "hello") == 3
      && ListCommand.RemoveOccurrences(xs, "hello", -2) == ["hello", "foo"]
  {
    var a: seq<Value>, b: seq<Value> := ["hello", "foo"], ["hello", "hello"];
    assert ["hello", "foo", "hello", "hello"] == a + b;
    assert Count(b, "hello") == 2 by {
      assert b == ["hello"] + ["hello"];
      CountConcat(["hello"], ["hello"], "hello");
    }
    assert Count(a, "hello") == 1 by {
      assert a == ["hello"] + ["foo"];
      CountConcat(["hello"], ["foo"], "hello");
    }
    CountConcat(a, b, "hello");
    ListCommand.LremTailCut(a, b, "hello", -2);
    assert RemoveAll(b, "hello") == [] by {
      assert b[1..] == ["hello"];
    }
    assert a + [] == a;
  }

  /**
   * `lrem list -2 hello` on [hello, foo, hello, hello] removes the last two
   * "hello"s and replies "2"; `llen list` then replies "2".
   */
  lemma LremFromTail()
    ensures var s := ListCommand.Lrem(map["list" := ["hello", "foo", "hello", "hello"]], ["list", "-2", "hello"]);
      && s.result == Ok("2")
      && s.state == map["list" := ["hello", "foo"]]
      && ListCommand.Llen(s.state, ["list"]) == Ok("2")
  {
    assert ParseI32("-2") == Some(-2) by {
      assert DigitsValue("2") == 2;
      ParseI32OfSignedDigits("-", "2");
      assert "-" + "2" == "-2";
    }
    SampleTailRemoval();
    assert NatToString(2) == "2";
  }

  /**
   * Because `lpush` appends in this revision, four pushes of hello, foo, hello and
   * hello build the list of the `lrem` test; `lrem list -2 hello` on the state they
   * leave replies "2" and leaves [hello, foo].
   */
  lemma PushesThenLremFromTail()
    ensures var s1 := ListCommand.Lpush(map[], ["list", "hello"]);
      var s2 := ListCommand.Lpush(s1.state, ["list", "foo"]);
      var s3 := ListCommand.Lpush(s2.state, ["list", "hello"]);
      var s4 := ListCommand.Lpush(s3.state, ["list", "hello"]);
      var s := ListCommand.Lrem(s4.state, ["list", "-2", "hello"]);
      && s4.state == map["list" := ["hello", "foo", "hello", "hello"]]
      && s == Step(Ok("2"), map["list" := ["hello", "foo"]])
  {
    FourPushes("hello", "foo", "hello", "hello");
    LremFromTail();
  }
}
