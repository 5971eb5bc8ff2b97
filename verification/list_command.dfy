/**
 * The list-keyspace handlers `llen`, `lpush` and `lrem`. Each receives only the
 * list keyspace and the positional arguments after the command name.
 */
module ListCommand {
  import opened Results
  import opened Keyspace
  import opened Decimal
  import opened Occurrences

  const LlenArity := "[ERROR]: \"llen\" accepts only one argument"
  // Both messages below name "llen" although they belong to lpush and lrem.
  const LpushArity := "[ERROR]: At least two arguments required for \"llen\"!"
  const LremArity := "[ERROR]: At least three arguments required for \"llen\"!"

  function LremNotANumber(arg: string): string {
    "Second argument of \"lrem\" MUST be a whole number! Got \"" + arg + "\""
  }

  /** A missing key reads as the empty list. */
  function ListOrEmpty(lists: ListSpace, key: string): seq<Value> {
    if key in lists then lists[key] else []
  }

  /** `llen key`: the length of the list at key, a missing key counting as empty. */
  function Llen(lists: ListSpace, args: seq<string>): (r: Result)
    ensures r.Ok? <==> |args| == 1
    ensures |args| != 1 ==> r.error == LlenArity
    ensures |args| == 1 ==> r.value == NatToString(|ListOrEmpty(lists, args[0])|)
    ensures |args| == 1 && args[0] !in lists ==> r.value == "0"
  {
    if |args| != 1 then Err(LlenArity)
    else if args[0] !in lists then Ok("0")
    else Ok(NatToString(|lists[args[0]]|))
  }

  /**
   * `lpush key v1 .. vn`: in this revision the values are APPENDED, in argument
   * order, to the list at key (created if missing); the reply is n.
   */
  function Lpush(lists: ListSpace, args: seq<string>): (r: Step<ListSpace>)
    ensures r.result.Ok? <==> |args| >= 2
    ensures |args| < 2 ==> r == Step(Err(LpushArity), lists)
    ensures |args| >= 2 ==> r.result.value == NatToString(|args| - 1)
    ensures |args| >= 2 ==> r.state.Keys == lists.Keys + {args[0]}
    ensures |args| >= 2 ==> r.state[args[0]] == ListOrEmpty(lists, args[0]) + args[1..]
    ensures forall k :: k in lists && (|args| == 0 || k != args[0]) ==> k in r.state && r.state[k] == lists[k]
  {
    if |args| < 2 then Step(Err(LpushArity), lists)
    else
      var key, values := args[0], args[1..];
      var updated := if key !in lists then lists[key := values] else lists[key := lists[key] + values];
      Step(Ok(NatToString(|args| - 1)), updated)
  }

  /** How many occurrences `lrem` with a signed count removes from a list holding occ of them. */
  function RemovalCount(count: int, occ: nat): (k: nat)
    ensures k <= occ
    ensures count == 0 ==> k == occ
    ensures count != 0 ==> k == occ || k == (if count < 0 then -count else count)
    ensures count != 0 ==> k <= (if count < 0 then -count else count)
  {
    if count == 0 then occ else Removed(if count < 0 then -count else count, occ)
  }

  /**
   * The list `lrem` leaves behind: count 0 removes every occurrence of v, count > 0
   * the first count of them scanning from the head, count < 0 the last -count of
   * them scanning from the tail.
   */
  function RemoveOccurrences<T(==)>(xs: seq<T>, v: T, count: int): (r: seq<T>)
    ensures |r| == |xs| - RemovalCount(count, Count(xs, v))
    ensures Count(r, v) == Count(xs, v) - RemovalCount(count, Count(xs, v))
  {
    if count == 0 then RemoveAllCounts(xs, v); RemoveAll(xs, v)
    else if count < 0 then RemoveLastCounts(xs, v, -count); RemoveLast(xs, v, -count)
    else RemoveFirstCounts(xs, v, count); RemoveFirst(xs, v, count)
  }

  /**
   * The same as RemoveOccurrences, but negating the count as a 32-bit integer, as
   * the source writes it: an i32::MIN count wraps to itself and so stays negative.
   */
  function RemoveOccurrencesAsWritten<T(==)>(xs: seq<T>, v: T, count: int): (r: seq<T>)
    requires InI32(count)
    ensures count != I32Min ==> r == RemoveOccurrences(xs, v, count)
  {
    if count == 0 then RemoveAll(xs, v)
    else if count < 0 then RemoveLast(xs, v, WrappingNeg32(count))
    else RemoveFirst(xs, v, count)
  }

  /**
   * `lrem key count value`: arguments after the third are ignored; a count that is
   * not an i32 fails even when key is missing; a missing key replies "0" and is not
   * created; otherwise the reply is the number of elements removed.
   */
  function Lrem(lists: ListSpace, args: seq<string>): (r: Step<ListSpace>)
    ensures |args| < 3 ==> r == Step(Err(LremArity), lists)
    ensures |args| >= 3 && ParseI32(args[1]).None? ==> r == Step(Err(LremNotANumber(args[1])), lists)
    ensures |args| >= 3 && ParseI32(args[1]).Some? && args[0] !in lists ==> r == Step(Ok("0"), lists)
    ensures |args| >= 3 && ParseI32(args[1]).Some? && args[0] in lists ==>
      var xs, v, count := lists[args[0]], args[2], ParseI32(args[1]).value;
      && r.state == lists[args[0] := RemoveOccurrences(xs, v, count)]
      && r.result == Ok(NatToString(RemovalCount(count, Count(xs, v))))
  {
    if |args| < 3 then Step(Err(LremArity), lists)
    else
      var name, key := args[0], args[2];
      match ParseI32(args[1])
      case None => Step(Err(LremNotANumber(args[1])), lists)
      case Some(count) =>
        if name !in lists then Step(Ok("0"), lists)
        else
          var oldLen := |lists[name]|;
          var updated := lists[name := RemoveOccurrences(lists[name], key, count)];
          Step(Ok(NatToString(oldLen - |updated[name]|)), updated)
  }

  // ---------------------------------------------------------------------------
  // Properties of lrem
  // ---------------------------------------------------------------------------

  /**
   * What `lrem` with count > 0 leaves behind, stated without the scan: cut the list
   * into a + b where a holds exactly the number of occurrences removed; then every
   * occurrence in a is gone and b is untouched.
   */
  lemma {:induction false} LremHeadCut<T>(a: seq<T>, b: seq<T>, v: T, count: int)
    requires count > 0
    requires Count(a, v) == RemovalCount(count, Count(a + b, v))
    ensures RemoveOccurrences(a + b, v, count) == RemoveAll(a, v) + b
  {
    RemoveFirstConcat(a, b, v, count);
  }

  /**
   * What `lrem` with count < 0 leaves behind: cut the list into a + b where b holds
   * exactly the number of occurrences removed; then a is untouched and every
   * occurrence in b is gone.
   */
  lemma {:induction false} LremTailCut<T>(a: seq<T>, b: seq<T>, v: T, count: int)
    requires count < 0
    requires Count(b, v) == RemovalCount(count, Count(a + b, v))
    ensures RemoveOccurrences(a + b, v, count) == a + RemoveAll(b, v)
  {
    var budget := -count;
    assert RemoveOccurrences(a + b, v, count) == RemoveLast(a + b, v, budget);
    assert RemoveLast(a + b, v, budget) == a + RemoveAll(b, v) by {
      assert Count(b, v) == Removed(budget, Count(a + b, v));
      RemoveLastConcat(a, b, v, budget);
    }
  }

  /** With count 0 no element equal to v survives. */
  lemma LremZeroLeavesNoMatch<T>(xs: seq<T>, v: T)
    ensures v !in RemoveOccurrences(xs, v, 0)
  {
    CountZeroIffAbsent(RemoveOccurrences(xs, v, 0), v);
  }

  /** Whatever the count, the surviving elements keep their original relative order. */
  lemma RemoveOccurrencesKeepsOrder<T>(xs: seq<T>, v: T, count: int)
    ensures IsSubsequence(RemoveOccurrences(xs, v, count), xs)
  {
    if count == 0 {
      RemoveAllKeepsOrder(xs, v);
    } else if count < 0 {
      RemoveLastKeepsOrder(xs, v, -count);
    } else {
      RemoveFirstKeepsOrder(xs, v, count);
    }
  }

  /** Only elements equal to v are ever removed: every other value keeps its number of copies. */
  lemma RemoveOccurrencesKeepsOthers<T>(xs: seq<T>, v: T, count: int, w: T)
    requires w != v
    ensures Count(RemoveOccurrences(xs, v, count), w) == Count(xs, w)
  {
    if count == 0 {
      RemoveAllKeepsOthers(xs, v, w);
    } else if count < 0 {
      TailScanKeepsOthers(xs, v, count, w);
    } else {
      HeadScanKeepsOthers(xs, v, count, w);
    }
  }

  lemma HeadScanKeepsOthers<T>(xs: seq<T>, v: T, count: int, w: T)
    requires w != v && count > 0
    ensures Count(RemoveOccurrences(xs, v, count), w) == Count(xs, w)
  {
    var p := PrefixWithCount(xs, v, RemovalCount(count, Count(xs, v)));
    var a, b := xs[..p], xs[p..];
    assert xs == a + b;
    LremHeadCut(a, b, v, count);
    CutKeepsOthers(a, b, v, w);
  }

  lemma TailScanKeepsOthers<T>(xs: seq<T>, v: T, count: int, w: T)
    requires w != v && count < 0
    ensures Count(RemoveOccurrences(xs, v, count), w) == Count(xs, w)
  {
    var p := SuffixWithCount(xs, v, RemovalCount(count, Count(xs, v)));
    var a, b := xs[..p], xs[p..];
    assert xs == a + b;
    LremTailCut(a, b, v, count);
    CutKeepsOthers(a, b, v, w);
  }

  /** The reply of a successful `lrem` is exactly how far `llen` of that key drops. */
  lemma LremReplyIsLlenDrop(lists: ListSpace, args: seq<string>)
    requires |args| >= 3 && ParseI32(args[1]).Some?
    ensures var r := Lrem(lists, args);
      var before, after := |ListOrEmpty(lists, args[0])|, |ListOrEmpty(r.state, args[0])|;
      && after <= before
      && r.result == Ok(NatToString(before - after))
      && Llen(lists, [args[0]]) == Ok(NatToString(before))
      && Llen(r.state, [args[0]]) == Ok(NatToString(after))
  {
    var r := Lrem(lists, args);
    if args[0] in lists {
      assert r.state[args[0]] == RemoveOccurrences(lists[args[0]], args[2], ParseI32(args[1]).value);
    }
  }

  /**
   * Finding: with a count of i32::MIN the source's 32-bit negation wraps, the
   * remaining budget is negative, and nothing is removed; the intended tail scan
   * removes every occurrence.
   */
  lemma LremMinCountRemovesNothing<T>(xs: seq<T>, v: T)
    ensures RemoveOccurrencesAsWritten(xs, v, I32Min) == xs
    ensures v in xs ==> RemoveOccurrences(xs, v, I32Min) != xs
  {
    var rev := Reverse(xs);
    RemoveFirstWithoutBudget(rev, v, I32Min);
    ReverseReverse(xs);
    if v in xs {
      CountZeroIffAbsent(xs, v);
    }
  }
}
