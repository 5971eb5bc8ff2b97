/**
 * The command-line tokenizer: `str::split(" ")`. No quoting, no escaping and no
 * collapsing of repeated separators; the first piece is the command name.
 */
module Tokenizer {
  import Occurrences

  /**
   * The pieces of s between occurrences of sep, in order. There is always at least
   * one piece (the empty text yields one empty piece), and two adjacent separators
   * delimit an empty piece.
   */
  function Split(s: string, sep: char): (r: seq<string>)
    ensures |r| >= 1
    ensures forall i :: 0 <= i < |r| ==> sep !in r[i]
    ensures |r| == Occurrences.Count(s, sep) + 1
  {
    if |s| == 0 then [""]
    else
      var rest := Split(s[1..], sep);
      if s[0] == sep then [""] + rest
      else [[s[0]] + rest[0]] + rest[1..]
  }

  /** The pieces written out with one sep between neighbours. */
  function Join(pieces: seq<string>, sep: char): string
  {
    if |pieces| == 0 then ""
    else if |pieces| == 1 then pieces[0]
    else pieces[0] + [sep] + Join(pieces[1..], sep)
  }

  /** Splitting loses nothing: joining the pieces back gives the original line. */
  lemma {:induction false} JoinSplit(s: string, sep: char)
    ensures Join(Split(s, sep), sep) == s
  {
    if |s| > 0 {
      var rest := Split(s[1..], sep);
      JoinSplit(s[1..], sep);
      if s[0] == sep {
        assert ([""] + rest)[1..] == rest;
      } else if |rest| > 1 {
        var pieces := Split(s, sep);
        assert pieces[1..] == rest[1..];
        assert Join(rest, sep) == rest[0] + [sep] + Join(rest[1..], sep);
        assert s == [s[0]] + s[1..];
      } else {
        assert s == [s[0]] + s[1..];
      }
    }
  }

  /** A prefix free of separators extends the first piece and nothing else. */
  lemma {:induction false} SplitWithPrefix(t: string, u: string, sep: char)
    requires sep !in t
    ensures Split(t + u, sep) == [t + Split(u, sep)[0]] + Split(u, sep)[1..]
  {
    if |t| > 0 {
      assert (t + u)[0] == t[0];
      assert (t + u)[1..] == t[1..] + u;
      SplitWithPrefix(t[1..], u, sep);
      assert [t[0]] + (t[1..] + Split(u, sep)[0]) == t + Split(u, sep)[0];
    } else {
      var r := Split(u, sep);
      assert t + u == u && t + r[0] == r[0];
      assert [r[0]] + r[1..] == r;
    }
  }

  /** Pieces free of separators are recovered exactly from their join. */
  lemma {:induction false} SplitJoin(pieces: seq<string>, sep: char)
    requires |pieces| >= 1
    requires forall i :: 0 <= i < |pieces| ==> sep !in pieces[i]
    ensures Split(Join(pieces, sep), sep) == pieces
  {
    var t := pieces[0];
    if |pieces| == 1 {
      SplitWithPrefix(t, "", sep);
      assert t + "" == t;
    } else {
      var u := Join(pieces[1..], sep);
      SplitJoin(pieces[1..], sep);
      assert Join(pieces, sep) == t + ([sep] + u);
      assert ([sep] + u)[0] == sep && ([sep] + u)[1..] == u;
      SplitWithPrefix(t, [sep] + u, sep);
      assert t + "" == t;
    }
  }
}
