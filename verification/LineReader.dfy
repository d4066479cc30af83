/** The line-buffered reader of standard input, one line per call. */
module LineReader {
  import opened Text

  /** The `n`-th line of a text; the empty string when the text has fewer. */
  function NthLine(text: string, n: nat): string {
    var lines := Split(text, '\n');
    if n < |lines| then lines[n] else ""
  }

  /** How many reads can have an answer: complete lines only, until the input has ended. */
  function Answerable(text: string, ended: bool, calls: nat): nat {
    var complete := |Split(text, '\n')| - 1;
    if ended || calls <= complete then calls else complete
  }

  /**
   What the reads have resolved to, from nothing but the text received, whether it has ended,
   and the number of calls: neither the chunks nor the order of events matters.
   */
  function Resolved(text: string, ended: bool, calls: nat): seq<string> {
    seq(Answerable(text, ended, calls), i requires 0 <= i => NthLine(text, i))
  }

  /** A complete line is the same line in any longer text. */
  lemma CompleteLineStays(text: string, more: string, n: nat)
    requires n < |Split(text, '\n')| - 1
    ensures NthLine(text + more, n) == NthLine(text, n)
  {
    SplitOfMore(text, more, '\n');
  }

  /** So an answer, once given, is the answer for the whole input. */
  lemma AnswersAreForTheWholeInput(text: string, more: string, calls: nat, laterCalls: nat, ended: bool)
    requires calls <= laterCalls
    ensures Resolved(text, false, calls) <= Resolved(text + more, ended, laterCalls)
  {
    var now, later := Resolved(text, false, calls), Resolved(text + more, ended, laterCalls);
    SplitOfMore(text, more, '\n');
    forall i | 0 <= i < |now| ensures now[i] == later[i] {
      CompleteLineStays(text, more, i);
    }
  }

  /** When the input has ended, the `n`-th of any number of reads has the `n`-th line. */
  lemma EveryReadIsAnsweredAtTheEnd(text: string, calls: nat, n: nat)
    requires n < calls
    ensures |Resolved(text, true, calls)| == calls && Resolved(text, true, calls)[n] == NthLine(text, n)
    ensures n >= |Split(text, '\n')| ==> Resolved(text, true, calls)[n] == ""
  {
  }

  /** The buffer is the rest of the input, and stays so when both grow. */
  lemma {:induction false} RestGrows(input: string, buffer: string, chunk: string, done: nat)
    requires done < |Split(input, '\n')| && Split(buffer, '\n') == Split(input, '\n')[done..]
    ensures done < |Split(input + chunk, '\n')|
    ensures Split(buffer + chunk, '\n') == Split(input + chunk, '\n')[done..]
  {
    var lines := Split(input, '\n');
    SplitOfMore(input, chunk, '\n');
    SplitOfMore(buffer, chunk, '\n');
    RestOf(lines, Split(Last(lines) + chunk, '\n'), done);
  }

  lemma RestOf(lines: seq<string>, more: seq<string>, done: nat)
    requires done < |lines| && more != []
    ensures Last(lines[done..]) == Last(lines) && |Init(lines) + more| >= |lines|
    ensures (Init(lines) + more)[done..] == Init(lines[done..]) + more
  {
  }

  class Reader {
    var buffer: string
    var ended: bool
    var queue: seq<nat>          // the pending reads, by number
    var results: seq<string>     // what the reads have resolved to, in order

    ghost var input: string      // everything received
    ghost var calls: nat         // the calls made

    /** The pending reads are the latest ones, in order. */
    ghost predicate Queued()
      reads this
    {
      && |results| + |queue| == calls
      && forall i | 0 <= i < |queue| :: queue[i] == |results| + i
    }

    /** What is left in the buffer is the rest of the input. */
    ghost predicate Buffered()
      reads this
    {
      var lines := Split(input, '\n');
      || (|results| < |lines| && Split(buffer, '\n') == lines[|results|..])
      || (ended && buffer == "" && |results| >= |lines|)
    }

    ghost predicate Answered()
      reads this
    {
      forall i | 0 <= i < |results| :: results[i] == NthLine(input, i)
    }

    ghost predicate Valid()
      reads this
    {
      Queued() && Buffered() && Answered() && (queue == [] || (!ended && '\n' !in buffer))
    }

    constructor ()
      ensures Valid() && input == "" && !ended && calls == 0
    {
      buffer, ended, queue, results := "", false, [], [];
      input, calls := "", 0;
    }

    /** In a valid state the answers are exactly the specified ones. */
    lemma AnswersAreTheResolved()
      requires Valid()
      ensures results == Resolved(input, ended, calls)
    {
      var lines := Split(input, '\n');
      if queue != [] {
        SplitWhole(buffer, '\n');
        assert |lines[|results|..]| == 1;
      }
    }

    method TryDeliver()
      requires Queued() && Buffered() && Answered()
      modifies this`buffer, this`queue, this`results
      ensures Valid()
    {
      while |queue| > 0
        invariant Queued() && Buffered() && Answered()
        decreases |queue|
      {
        ghost var lines := Split(input, '\n');
        ghost var parts := Split(buffer, '\n');
        ghost var done := |results|;
        var newline := IndexOf(buffer, '\n');
        if newline == -1 {
          NoNewline(buffer);
          if !ended { return; }
          assert done < |lines| ==> lines[done..] == [buffer] && lines[done] == buffer;
          queue, results := queue[1..], results + [buffer];
          buffer := "";
        } else {
          assert parts == [buffer[..newline]] + Split(buffer[newline + 1..], '\n');
          assert done < |lines| && lines[done] == parts[0];
          assert lines[done + 1..] == lines[done..][1..] == Split(buffer[newline + 1..], '\n');
          queue, results := queue[1..], results + [buffer[..newline]];
          buffer := buffer[newline + 1..];
        }
      }
    }

    static lemma NoNewline(s: string)
      requires IndexOf(s, '\n') == -1
      ensures '\n' !in s && Split(s, '\n') == [s]
    {
      if '\n' in s {
        var k :| 0 <= k < |s| && s[k] == '\n';
        IndexOfIsFirst(s, '\n', k);
      }
    }

    /** A chunk arrives; none does after the end. */
    method OnData(chunk: string)
      requires Valid() && !ended
      modifies this
      ensures Valid() && !ended
      ensures input == old(input) + chunk && calls == old(calls)
      ensures results == Resolved(input, ended, calls)
    {
      RestGrows(input, buffer, chunk, |results|);
      forall i | 0 <= i < |results| ensures NthLine(input + chunk, i) == results[i] {
        CompleteLineStays(input, chunk, i);
      }
      buffer := buffer + chunk;
      input := input + chunk;
      TryDeliver();
      AnswersAreTheResolved();
    }

    method OnEnd()
      requires Valid()
      modifies this
      ensures Valid() && ended
      ensures input == old(input) && calls == old(calls)
      ensures results == Resolved(input, ended, calls)
    {
      ended := true;
      TryDeliver();
      AnswersAreTheResolved();
    }

    /** One call: its promise is the one numbered `n`. */
    method Read() returns (n: nat)
      requires Valid()
      modifies this
      ensures Valid() && n == old(calls) && calls == n + 1
      ensures input == old(input) && ended == old(ended)
      ensures results == Resolved(input, ended, calls)
    {
      n := |results| + |queue|;
      queue := queue + [n];
      calls := calls + 1;
      TryDeliver();
      AnswersAreTheResolved();
    }
  }
}
