/** Newline-delimited JSON over a chunked response: the client's `stream` generator. */
module NdjsonStream {
  import opened Wrappers
  import opened Text

  /** The values yielded, and whether the generator came to its end without throwing. */
  datatype Yield<T> = Yield(values: seq<T>, ok: bool)

  /** Parsing whole lines in order, skipping blank ones, up to the first that does not parse. */
  function Decode<T>(lines: seq<string>, parse: string -> Option<T>): Yield<T> {
    if lines == [] then Yield([], true)
    else if IsBlank(lines[0]) then Decode(lines[1..], parse)
    else match parse(lines[0])
      case None => Yield([], false)
      case Some(v) => var rest := Decode(lines[1..], parse); Yield([v] + rest.values, rest.ok)
  }

  function Concat(chunks: seq<string>): string {
    if chunks == [] then "" else Concat(Init(chunks)) + Last(chunks)
  }

  lemma {:induction false} DecodeOfMore<T>(a: seq<string>, b: seq<string>, parse: string -> Option<T>)
    ensures Decode(a + b, parse) ==
            if Decode(a, parse).ok
            then Yield(Decode(a, parse).values + Decode(b, parse).values, Decode(b, parse).ok)
            else Decode(a, parse)
  {
    if a == [] {
      assert a + b == b;
    } else {
      assert (a + b)[1..] == a[1..] + b;
      DecodeOfMore(a[1..], b, parse);
      if !IsBlank(a[0]) && parse(a[0]).Some? && Decode(a[1..], parse).ok {
        assert [parse(a[0]).value] + (Decode(a[1..], parse).values + Decode(b, parse).values)
            == ([parse(a[0]).value] + Decode(a[1..], parse).values) + Decode(b, parse).values;
      }
    }
  }

  /** The inner loop over complete lines. */
  method YieldLines<T>(lines: seq<string>, parse: string -> Option<T>) returns (y: Yield<T>)
    ensures y == Decode(lines, parse)
  {
    var values := [];
    for i := 0 to |lines|
      invariant Decode(lines[..i], parse) == Yield(values, true)
    {
      assert lines[..i + 1] == lines[..i] + [lines[i]];
      assert lines == lines[..i + 1] + lines[i + 1..];
      DecodeOfMore(lines[..i], [lines[i]], parse);
      DecodeOfMore(lines[..i + 1], lines[i + 1..], parse);
      if !IsBlank(lines[i]) {
        match parse(lines[i]) {
          case None => return Yield(values, false);
          case Some(v) => values := values + [v];
        }
      }
    }
    assert lines[..|lines|] == lines;
    return Yield(values, true);
  }

  lemma {:induction false} ConcatOfMore(a: seq<string>, b: seq<string>)
    ensures Concat(a + b) == Concat(a) + Concat(b)
  {
    if b == [] {
      assert a + b == a;
    } else {
      assert Init(a + b) == a + Init(b) && Last(a + b) == Last(b);
      ConcatOfMore(a, Init(b));
      assert Concat(a) + (Concat(Init(b)) + Last(b)) == (Concat(a) + Concat(Init(b))) + Last(b);
    }
  }

  /** A complete line that does not parse stops the stream there, whatever follows. */
  lemma {:induction false} FailureIsFinal<T>(t: string, u: string, parse: string -> Option<T>)
    requires !Decode(Init(Split(t, '\n')), parse).ok
    ensures Decode(Split(t + u, '\n'), parse) == Decode(Init(Split(t, '\n')), parse)
  {
    SplitOfMore(t, u, '\n');
    DecodeOfMore(Init(Split(t, '\n')), Split(Last(Split(t, '\n')) + u, '\n'), parse);
  }

  /** What has been yielded after a text, its last line still pending. */
  function Complete<T>(t: string, parse: string -> Option<T>): Yield<T> {
    Decode(Init(Split(t, '\n')), parse)
  }

  lemma CompleteStep<T>(t: string, u: string, parse: string -> Option<T>)
    requires Complete(t, parse).ok
    ensures var now := Decode(Init(Split(Last(Split(t, '\n')) + u, '\n')), parse);
            Complete(t + u, parse) == Yield(Complete(t, parse).values + now.values, now.ok)
  {
    SplitStep(t, u, '\n');
    DecodeOfMore(Init(Split(t, '\n')), Init(Split(Last(Split(t, '\n')) + u, '\n')), parse);
  }

  lemma CompleteEnd<T>(t: string, parse: string -> Option<T>)
    requires Complete(t, parse).ok
    ensures var last := Decode([Last(Split(t, '\n'))], parse);
            Decode(Split(t, '\n'), parse) == Yield(Complete(t, parse).values + last.values, last.ok)
  {
    var parts := Split(t, '\n');
    assert parts == Init(parts) + [Last(parts)];
    DecodeOfMore(Init(parts), [Last(parts)], parse);
  }

  lemma {:induction false} FailureInPrefix<T>(chunks: seq<string>, i: nat, parse: string -> Option<T>)
    requires i <= |chunks| && !Complete(Concat(chunks[..i]), parse).ok
    ensures Decode(Split(Concat(chunks), '\n'), parse) == Complete(Concat(chunks[..i]), parse)
  {
    assert chunks == chunks[..i] + chunks[i..];
    ConcatOfMore(chunks[..i], chunks[i..]);
    FailureIsFinal(Concat(chunks[..i]), Concat(chunks[i..]), parse);
  }

  /**
   Whatever the cuts between chunks, what is yielded is what the lines of the whole text hold,
   and the generator throws exactly when one of them does not parse.
   */
  method Stream<T>(chunks: seq<string>, parse: string -> Option<T>) returns (y: Yield<T>)
    ensures y == Decode(Split(Concat(chunks), '\n'), parse)
  {
    var values: seq<T> := [];
    var buffer := "";
    for i := 0 to |chunks|
      invariant buffer == Last(Split(Concat(chunks[..i]), '\n'))
      invariant Complete(Concat(chunks[..i]), parse) == Yield(values, true)
    {
      ghost var t := Concat(chunks[..i]);
      assert Init(chunks[..i + 1]) == chunks[..i];
      assert Concat(chunks[..i + 1]) == t + chunks[i];
      SplitStep(t, chunks[i], '\n');
      CompleteStep(t, chunks[i], parse);
      buffer := buffer + chunks[i];
      var lines := Split(buffer, '\n');
      buffer := Last(lines);
      var now := YieldLines(Init(lines), parse);
      values := values + now.values;
      if !now.ok {
        FailureInPrefix(chunks, i + 1, parse);
        return Yield(values, false);
      }
    }
    assert chunks[..|chunks|] == chunks;
    CompleteEnd(Concat(chunks), parse);
    var last := YieldLines([buffer], parse);
    return Yield(values + last.values, last.ok);
  }

  // ---------------------------------------------------------------- writing and streaming back

  /** Each frame on a line of its own. */
  function WriteFrames<T>(frames: seq<T>, write: T -> string): string {
    if frames == [] then "" else write(frames[0]) + "\n" + WriteFrames(frames[1..], write)
  }

  /** Streaming what was written frame by frame gives the frames back. */
  lemma {:induction false} FramesComeBack<T>(frames: seq<T>, write: T -> string, parse: string -> Option<T>)
    requires forall f | f in frames :: '\n' !in write(f) && !IsBlank(write(f)) && parse(write(f)) == Some(f)
    ensures Decode(Split(WriteFrames(frames, write), '\n'), parse) == Yield(frames, true)
  {
    if frames == [] {
      SplitWhole("", '\n');
      assert Decode([""], parse) == Decode([""][1..], parse);
    } else {
      var line, rest := write(frames[0]), WriteFrames(frames[1..], write);
      SplitAt(line, rest, '\n');
      FramesComeBack(frames[1..], write, parse);
      assert ([line] + Split(rest, '\n'))[1..] == Split(rest, '\n');
    }
  }
}
