/** Strings as JavaScript splits and trims them. */
module Text {
  /** `s.indexOf(c)` */
  function IndexOf(s: string, c: char): (i: int)
    ensures -1 <= i < |s|
    ensures i >= 0 ==> s[i] == c
  {
    if s == "" then -1
    else if s[0] == c then 0
    else var i := IndexOf(s[1..], c); if i < 0 then -1 else i + 1
  }

  /** It is the first occurrence. */
  lemma {:induction false} IndexOfIsFirst(s: string, c: char, k: nat)
    requires k < |s| && s[k] == c
    ensures 0 <= IndexOf(s, c) <= k
  {
    if s[0] != c {
      IndexOfIsFirst(s[1..], c, k - 1);
    }
  }

  lemma Absent(s: string, c: char)
    requires c !in s
    ensures IndexOf(s, c) == -1
  {
  }

  /** `s.split(sep)` */
  function Split(s: string, sep: char): (parts: seq<string>)
    ensures parts != []
    decreases |s|
  {
    var i := IndexOf(s, sep);
    if i < 0 then [s] else [s[..i]] + Split(s[i + 1..], sep)
  }

  function Last<T>(s: seq<T>): T
    requires s != []
  {
    s[|s| - 1]
  }

  function Init<T>(s: seq<T>): seq<T>
    requires s != []
  {
    s[..|s| - 1]
  }

  /** `parts.join(sep)` */
  function Join(parts: seq<string>, sep: char): string {
    if parts == [] then ""
    else if |parts| == 1 then parts[0]
    else parts[0] + [sep] + Join(parts[1..], sep)
  }

  lemma {:induction false} IndexOfPrefix(a: string, b: string, c: char)
    ensures IndexOf(a + b, c) ==
            if IndexOf(a, c) >= 0 then IndexOf(a, c)
            else if IndexOf(b, c) >= 0 then |a| + IndexOf(b, c) else -1
  {
    if a == "" {
      assert a + b == b;
    } else {
      assert (a + b)[1..] == a[1..] + b && (a + b)[0] == a[0];
      IndexOfPrefix(a[1..], b, c);
    }
  }

  lemma SplitAt(a: string, rest: string, sep: char)
    requires sep !in a
    ensures Split(a + [sep] + rest, sep) == [a] + Split(rest, sep)
  {
    var s := a + [sep] + rest;
    assert s == a + ([sep] + rest);
    Absent(a, sep);
    IndexOfPrefix(a, [sep] + rest, sep);
    assert s[..|a|] == a && s[|a| + 1..] == rest;
  }

  /** A text is one part, or a first part, the separator and the rest. */
  lemma Cut(s: string, sep: char) returns (head: string, rest: string)
    requires sep in s
    ensures sep !in head && s == head + [sep] + rest && |rest| < |s|
  {
    var k :| 0 <= k < |s| && s[k] == sep;
    IndexOfIsFirst(s, sep, k);
    var i := IndexOf(s, sep);
    head, rest := s[..i], s[i + 1..];
    if sep in head {
      var j :| 0 <= j < |head| && head[j] == sep;
      IndexOfIsFirst(s, sep, j);
    }
  }

  lemma SplitWhole(s: string, sep: char)
    requires sep !in s
    ensures Split(s, sep) == [s]
  {
    Absent(s, sep);
  }

  /** More text changes only the last part. */
  lemma {:induction false} SplitOfMore(a: string, b: string, sep: char)
    ensures Split(a + b, sep) == Init(Split(a, sep)) + Split(Last(Split(a, sep)) + b, sep)
    decreases |a|
  {
    if sep !in a {
      SplitWhole(a, sep);
      Regroup(a, [], Split(a + b, sep));
    } else {
      var head, rest := Cut(a, sep);
      SplitAt(head, rest, sep);
      assert a + b == head + [sep] + (rest + b);
      SplitAt(head, rest + b, sep);
      SplitOfMore(rest, b, sep);
      var tail := Split(rest, sep);
      Regroup(head, tail, Split(Last(tail) + b, sep));
    }
  }

  lemma Regroup(head: string, tail: seq<string>, more: seq<string>)
    ensures tail == [] ==> Init([head] + tail) + more == more && Last([head] + tail) == head
    ensures tail != [] ==> Last([head] + tail) == Last(tail)
    ensures tail != [] ==> [head] + (Init(tail) + more) == Init([head] + tail) + more
  {
  }

  /** The parts of the longer text, by what was complete before and what was pending. */
  lemma SplitStep(a: string, b: string, sep: char)
    ensures var before, more := Split(a, sep), Split(Last(Split(a, sep)) + b, sep);
            && Init(Split(a + b, sep)) == Init(before) + Init(more)
            && Last(Split(a + b, sep)) == Last(more)
  {
    SplitOfMore(a, b, sep);
    var before, more := Split(a, sep), Split(Last(Split(a, sep)) + b, sep);
    assert Init(Init(before) + more) == Init(before) + Init(more);
  }

  lemma {:induction false} PartsHaveNoSeparator(s: string, sep: char)
    ensures forall p | p in Split(s, sep) :: sep !in p
    decreases |s|
  {
    if sep !in s {
      SplitWhole(s, sep);
    } else {
      var head, rest := Cut(s, sep);
      SplitAt(head, rest, sep);
      PartsHaveNoSeparator(rest, sep);
    }
  }

  lemma {:induction false} SplitOfJoin(parts: seq<string>, sep: char)
    requires parts != [] && forall p | p in parts :: sep !in p
    ensures Split(Join(parts, sep), sep) == parts
  {
    if |parts| == 1 {
      SplitWhole(parts[0], sep);
    } else {
      SplitAt(parts[0], Join(parts[1..], sep), sep);
      SplitOfJoin(parts[1..], sep);
    }
  }

  lemma {:induction false} JoinOfSplit(s: string, sep: char)
    ensures Join(Split(s, sep), sep) == s
    decreases |s|
  {
    if sep !in s {
      SplitWhole(s, sep);
    } else {
      var head, rest := Cut(s, sep);
      SplitAt(head, rest, sep);
      JoinOfSplit(rest, sep);
      assert ([head] + Split(rest, sep))[1..] == Split(rest, sep);
    }
  }

  /** White space and line terminators, as `trim` removes them. */
  predicate IsSpace(c: char) {
    var n := c as int;
    9 <= n <= 13 || n == 32 || n == 0xA0 || n == 0x1680 || 0x2000 <= n <= 0x200A
    || n == 0x2028 || n == 0x2029 || n == 0x202F || n == 0x205F || n == 0x3000 || n == 0xFEFF
  }

  predicate IsBlank(s: string) {
    forall i | 0 <= i < |s| :: IsSpace(s[i])
  }

  /** `s.trim()` */
  function Trim(s: string): string {
    if s == "" then ""
    else if IsSpace(s[0]) then Trim(s[1..])
    else if IsSpace(s[|s| - 1]) then Trim(s[..|s| - 1])
    else s
  }

  predicate IsTrimmed(s: string) {
    s == "" || (!IsSpace(s[0]) && !IsSpace(s[|s| - 1]))
  }

  /** Nothing is trimmed but white space at the two ends. */
  lemma {:induction false} TrimOnlyTrims(s: string) returns (front: string, back: string)
    ensures s == front + Trim(s) + back && IsBlank(front) && IsBlank(back)
  {
    if s == "" {
      front, back := "", "";
    } else if IsSpace(s[0]) {
      front, back := TrimOnlyTrims(s[1..]);
      assert s == [s[0]] + s[1..];
      front := [s[0]] + front;
    } else if IsSpace(s[|s| - 1]) {
      front, back := TrimOnlyTrims(s[..|s| - 1]);
      assert s == s[..|s| - 1] + [s[|s| - 1]];
      back := back + [s[|s| - 1]];
    } else {
      front, back := "", "";
    }
  }

  lemma {:induction false} TrimIsTrimmed(s: string)
    ensures IsTrimmed(Trim(s))
    ensures IsTrimmed(s) ==> Trim(s) == s
    ensures Trim(s) == "" <==> IsBlank(s)
  {
    if s == "" {
    } else if IsSpace(s[0]) {
      TrimIsTrimmed(s[1..]);
      assert IsBlank(s) ==> IsBlank(s[1..]);
      assert s == [s[0]] + s[1..];
    } else if IsSpace(s[|s| - 1]) {
      TrimIsTrimmed(s[..|s| - 1]);
      assert s[..|s| - 1][0] == s[0];
    }
  }
}
