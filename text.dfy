/** JavaScript's `String.prototype.split` with a one-character separator,
    the way the gate cuts the Authorization header. */
module Text {

  /** The inverse of splitting: the pieces glued back with the separator. */
  function Join(parts: seq<string>, sep: char): string
    requires |parts| >= 1
  {
    if |parts| == 1 then parts[0] else parts[0] + [sep] + Join(parts[1..], sep)
  }

  /** `s.split(sep)`: never empty ("" gives [""]), no piece holds the
      separator, and gluing the pieces back gives `s`. */
  function Split(s: string, sep: char): (parts: seq<string>)
    ensures |parts| >= 1
    ensures forall i :: 0 <= i < |parts| ==> sep !in parts[i]
    ensures Join(parts, sep) == s
    ensures |parts| == 1 <==> sep !in s
  {
    if |s| == 0 then [""]
    else
      var rest := Split(s[1..], sep);
      if s[0] == sep then
        assert s == [sep] + s[1..];
        [""] + rest
      else
        assert s == [s[0]] + s[1..];
        var parts := [[s[0]] + rest[0]] + rest[1..];
        assert parts[1..] == rest[1..];
        assert |rest| > 1 ==> rest == [rest[0]] + rest[1..];
        parts
  }

  /** Splitting undoes joining whenever no piece holds the separator. */
  lemma {:induction false} SplitJoin(parts: seq<string>, sep: char)
    requires |parts| >= 1
    requires forall i :: 0 <= i < |parts| ==> sep !in parts[i]
    ensures Split(Join(parts, sep), sep) == parts
  {
    if |parts| == 1 {
      SplitNoSeparator(parts[0], sep);
    } else {
      var tail := parts[1..];
      SplitJoin(tail, sep);
      SplitPrefix(parts[0], Join(tail, sep), sep);
      assert parts == [parts[0]] + tail;
    }
  }

  /** The second piece of a join sits between the first separator and the
      next one (or the end). */
  lemma {:induction false} JoinSecond(parts: seq<string>, sep: char)
    requires |parts| >= 2
    ensures Join(parts, sep) == parts[0] + [sep] + parts[1] + AfterSecond(parts, sep)
  {
    var tail := parts[1..];
    if |parts| > 2 {
      assert tail[1..] == parts[2..];
      assert Join(tail, sep) == tail[0] + [sep] + Join(parts[2..], sep);
    }
  }

  /** What follows the second piece of a join: nothing, or the separator. */
  function AfterSecond(parts: seq<string>, sep: char): (r: string)
    requires |parts| >= 2
    ensures r == [] || r[0] == sep
  {
    if |parts| == 2 then [] else [sep] + Join(parts[2..], sep)
  }

  lemma SplitNoSeparator(s: string, sep: char)
    requires sep !in s
    ensures Split(s, sep) == [s]
  {
  }

  /** A separator-free head followed by the separator splits off as one piece. */
  lemma {:induction false} SplitPrefix(head: string, rest: string, sep: char)
    requires sep !in head
    ensures Split(head + [sep] + rest, sep) == [head] + Split(rest, sep)
  {
    if |head| == 0 {
      assert head + [sep] + rest == [sep] + rest;
      assert ([sep] + rest)[1..] == rest;
    } else {
      var s := head + [sep] + rest;
      assert s[1..] == head[1..] + [sep] + rest;
      SplitPrefix(head[1..], rest, sep);
      assert [head[0]] + head[1..] == head;
    }
  }
}
