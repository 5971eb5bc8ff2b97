/** The stateless commands `echo` and `ping`; neither touches a keyspace. */
module OneOff {
  import opened Results

  const TooFewForEcho := "Too few arguments for \"echo\""
  const TooManyForEcho := "Too many arguments for \"echo\""

  /** `echo v` replies with v unchanged; any other number of arguments is an error. */
  function Echo(args: seq<string>): (r: Result)
    ensures r.Ok? <==> |args| == 1
    ensures r.Ok? ==> r.value == args[0]
    ensures |args| == 0 ==> r.error == TooFewForEcho
    ensures |args| > 1 ==> r.error == TooManyForEcho
  {
    if |args| < 1 then Err(TooFewForEcho)
    else if |args| > 1 then Err(TooManyForEcho)
    else Ok(args[0])
  }

  /**
   * `ping` replies "pong", `ping v` behaves as `echo v`, and more arguments fail
   * with the same message `echo` gives (it names "echo", not "ping").
   */
  function Ping(args: seq<string>): (r: Result)
    ensures |args| == 0 ==> r == Ok("pong")
    ensures |args| == 1 ==> r == Echo(args)
    ensures r.Err? <==> |args| >= 2
    ensures |args| >= 2 ==> r == Echo(args)
  {
    if |args| == 1 then Echo(args)
    else if |args| == 0 then Ok("pong")
    else Err(TooManyForEcho)
  }
}
