/**
 * Python's `sep.join(values)` and `s.split(sep)` for a one-character separator,
 * and the facts about them that the permission-string codec relies on.
 */
module Strings {

  /** The number of occurrences of `c` in `s`. */
  function Count(s: string, c: char): (n: nat)
    ensures n <= |s|
    ensures n == 0 <==> c !in s
  {
    if |s| == 0 then 0 else (if s[0] == c then 1 else 0) + Count(s[1..], c)
  }

  /** `sep.join(vs)`: the pieces with one separator between neighbours. */
  function Join(vs: seq<string>, sep: char): string
  {
    if |vs| == 0 then ""
    else if |vs| == 1 then vs[0]
    else vs[0] + [sep] + Join(vs[1..], sep)
  }

  /** `s.split(sep)`: the maximal separator-free pieces, empty ones included; never empty. */
  function Split(s: string, sep: char): (r: seq<string>)
    ensures |r| == Count(s, sep) + 1
    ensures forall i :: 0 <= i < |r| ==> sep !in r[i]
  {
    if |s| == 0 then [""]
    else
      var rest := Split(s[1..], sep);
      if s[0] == sep then [""] + rest
      else [[s[0]] + rest[0]] + rest[1..]
  }

  /** No piece of `vs` contains the separator. */
  predicate NoSeparator(vs: seq<string>, sep: char)
  {
    forall i :: 0 <= i < |vs| ==> sep !in vs[i]
  }

  /** Joining what was split gives back the string: splitting loses nothing. */
  lemma {:induction false} JoinSplit(s: string, sep: char)
    ensures Join(Split(s, sep), sep) == s
  {
    if |s| > 0 {
      var rest := Split(s[1..], sep);
      JoinSplit(s[1..], sep);
      if s[0] == sep {
        assert Split(s, sep) == [""] + rest;
        assert Join([""] + rest, sep) == "" + [sep] + Join(rest, sep);
        assert [s[0]] + s[1..] == s;
      } else {
        var r := Split(s, sep);
        assert r == [[s[0]] + rest[0]] + rest[1..];
        if |rest| == 1 {
          assert Join(r, sep) == [s[0]] + rest[0];
        } else {
          assert r[1..] == rest[1..];
          assert Join(rest, sep) == rest[0] + [sep] + Join(rest[1..], sep);
        }
        assert [s[0]] + s[1..] == s;
      }
    }
  }

  /** Splitting `a + sep + b`, where `a` holds no separator, yields `a` followed by the pieces of `b`. */
  lemma {:induction false} SplitCons(a: string, b: string, sep: char)
    requires sep !in a
    ensures Split(a + [sep] + b, sep) == [a] + Split(b, sep)
    decreases |a|
  {
    var s := a + [sep] + b;
    if |a| == 0 {
      assert s == [sep] + b;
      assert s[1..] == b;
    } else {
      assert a[0] in a;
      assert s[1..] == a[1..] + [sep] + b;
      SplitCons(a[1..], b, sep);
      SplitStep(s, sep);
      assert [a[0]] + a[1..] == a;
    }
  }

  /** One step of `Split` on a string that does not start with the separator. */
  lemma SplitStep(s: string, sep: char)
    requires |s| > 0 && s[0] != sep
    ensures Split(s, sep) == [[s[0]] + Split(s[1..], sep)[0]] + Split(s[1..], sep)[1..]
  {
  }

  /** A separator-free string splits into itself alone. */
  lemma {:induction false} SplitPlain(a: string, sep: char)
    requires sep !in a
    ensures Split(a, sep) == [a]
  {
    if |a| > 0 {
      SplitPlain(a[1..], sep);
      assert [a[0]] + a[1..] == a;
    }
  }

  /** Splitting what was joined gives back the pieces, provided none contains the separator. */
  lemma {:induction false} SplitJoin(vs: seq<string>, sep: char)
    requires |vs| > 0 && NoSeparator(vs, sep)
    ensures Split(Join(vs, sep), sep) == vs
  {
    if |vs| == 1 {
      SplitPlain(vs[0], sep);
    } else {
      SplitJoin(vs[1..], sep);
      SplitCons(vs[0], Join(vs[1..], sep), sep);
      assert [vs[0]] + vs[1..] == vs;
    }
  }
}
