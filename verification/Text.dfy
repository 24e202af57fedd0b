/** Strings as the JavaScript sources use them: UTF-8 length, search, split and join. */
module Text {

  /** Bytes of one Unicode scalar value in UTF-8. */
  function Utf8Width(c: char): (n: nat)
    ensures 1 <= n <= 4
  {
    if c < '\U{80}' then 1
    else if c < '\U{800}' then 2
    else if c < '\U{10000}' then 3
    else 4
  }

  function Utf8Length(s: string): (n: nat)
    ensures |s| <= n
  {
    if s == "" then 0 else Utf8Width(s[0]) + Utf8Length(s[1..])
  }

  lemma {:induction false} Utf8LengthConcat(a: string, b: string)
    ensures Utf8Length(a + b) == Utf8Length(a) + Utf8Length(b)
  {
    if a == "" {
      assert a + b == b;
    } else {
      assert (a + b)[1..] == a[1..] + b;
      Utf8LengthConcat(a[1..], b);
    }
  }

  lemma Utf8LengthOne(c: char)
    ensures Utf8Length([c]) == Utf8Width(c)
  {
  }

  lemma SplitAround(s: string, i: nat)
    requires i < |s|
    ensures s == s[..i] + [s[i]] + s[i + 1..]
  {
  }

  /** A string around one of its characters. */
  lemma Utf8LengthAround(s: string, i: nat)
    requires i < |s|
    ensures s == s[..i] + [s[i]] + s[i + 1..]
    ensures Utf8Length(s) == Utf8Length(s[..i]) + Utf8Width(s[i]) + Utf8Length(s[i + 1..])
  {
    SplitAround(s, i);
    Utf8LengthConcat(s[..i] + [s[i]], s[i + 1..]);
    Utf8LengthConcat(s[..i], [s[i]]);
    Utf8LengthOne(s[i]);
  }

  predicate IsAscii(s: string) {
    forall i :: 0 <= i < |s| ==> s[i] < '\U{80}'
  }

  lemma {:induction false} Utf8LengthAscii(s: string)
    requires IsAscii(s)
    ensures Utf8Length(s) == |s|
  {
    if s != "" {
      Utf8LengthAscii(s[1..]);
    }
  }

  predicate Lacks(s: string, c: char) {
    forall i :: 0 <= i < |s| ==> s[i] != c
  }

  /** First position of a character, or -1. */
  function IndexOf(s: string, c: char): (r: int)
    ensures -1 <= r < |s|
    ensures 0 <= r ==> s[r] == c && forall i :: 0 <= i < r ==> s[i] != c
    ensures r == -1 ==> Lacks(s, c)
  {
    if s == "" then -1
    else if s[0] == c then 0
    else
      var r := IndexOf(s[1..], c);
      assert forall i :: 0 < i < |s| ==> s[i] == s[1..][i - 1];
      if r == -1 then -1 else r + 1
  }

  function Split(s: string, c: char): (parts: seq<string>)
    ensures parts != []
    decreases |s|
  {
    var i := IndexOf(s, c);
    if i == -1 then [s] else [s[..i]] + Split(s[i + 1..], c)
  }

  function Join(parts: seq<string>, separator: string): string {
    if parts == [] then ""
    else if |parts| == 1 then parts[0]
    else parts[0] + separator + Join(parts[1..], separator)
  }

  /** Joining one more part at the front. */
  lemma JoinHead(head: string, parts: seq<string>, separator: string)
    ensures Join([head] + parts, separator) == if parts == [] then head else head + separator + Join(parts, separator)
  {
  }

  lemma SplitNone(s: string, c: char)
    requires Lacks(s, c)
    ensures Split(s, c) == [s]
  {
  }

  lemma {:induction false} JoinSplit(s: string, c: char)
    ensures Join(Split(s, c), [c]) == s
    decreases |s|
  {
    var i := IndexOf(s, c);
    if i != -1 {
      JoinSplit(s[i + 1..], c);
      JoinHead(s[..i], Split(s[i + 1..], c), [c]);
      assert s == s[..i] + [c] + s[i + 1..];
    }
  }

  /** Splitting at a first part that does not hold the separator. */
  lemma SplitHead(head: string, rest: string, c: char)
    requires Lacks(head, c)
    ensures Split(head + [c] + rest, c) == [head] + Split(rest, c)
    ensures IndexOf(head + [c] + rest, c) == |head|
  {
    var s := head + [c] + rest;
    assert s[..|head|] == head && s[|head| + 1..] == rest;
    assert s[|head|] == c;
    assert forall i :: 0 <= i < |head| ==> s[i] == head[i];
  }

  lemma {:induction false} SplitJoin(parts: seq<string>, c: char)
    requires parts != [] && forall i :: 0 <= i < |parts| ==> Lacks(parts[i], c)
    ensures Split(Join(parts, [c]), c) == parts
  {
    if |parts| > 1 {
      SplitJoin(parts[1..], c);
      SplitHead(parts[0], Join(parts[1..], [c]), c);
      assert parts == [parts[0]] + parts[1..];
    }
  }
}
