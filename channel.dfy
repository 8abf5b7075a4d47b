/** The child-process channel (class `Forign`, term_proxy.py:60-101): what
    `sendline` writes to the child's input, and how the output that arrives
    from the child is cut into complete lines. */
module Channel {
  import opened Text

  /** What one round of the multiplexing loop observed: a line the operator typed,
      or a chunk read from the child's output. */
  datatype Observation = Typed(line: string) | Arrived(data: string)

  /** The events the loop yields to the dispatcher. */
  datatype Event = Command(text: string) | Output(text: string)

  /** The text `sendline` writes to the child's input: the line and one newline. */
  function SendLine(line: string): string {
    line + "\n"
  }

  /** Every line followed by a newline, one after the other. */
  function Terminated(lines: seq<string>): string {
    if |lines| == 0 then "" else lines[0] + "\n" + Terminated(lines[1..])
  }

  predicate NoNewlines(lines: seq<string>) {
    forall k :: 0 <= k < |lines| ==> '\n' !in lines[k]
  }

  lemma {:induction false} JoinNewlines(parts: seq<string>)
    requires |parts| >= 1
    ensures Join(parts, "\n") == Terminated(parts[..|parts| - 1]) + parts[|parts| - 1]
    decreases |parts|
  {
    if |parts| > 1 {
      JoinNewlines(parts[1..]);
      assert parts[1..][..|parts| - 2] == parts[..|parts| - 1][1..];
    }
  }

  lemma {:induction false} TerminatedAppend(a: seq<string>, b: seq<string>)
    ensures Terminated(a + b) == Terminated(a) + Terminated(b)
    decreases |a|
  {
    if |a| == 0 {
      assert a + b == b;
    } else {
      assert (a + b)[1..] == a[1..] + b;
      TerminatedAppend(a[1..], b);
    }
  }

  /** The outcome of one read: the complete lines, and the fragment kept for the next read. */
  datatype Fed = Fed(lines: seq<string>, rest: string)

  /** One buffer step of `Forign.__iter__` (term_proxy.py:89-96): the data is
      appended to the buffer, the whole is split on newlines, and everything up to
      the last newline comes out as lines.  Nothing is lost or reordered, and
      neither a line nor the kept fragment holds a newline. */
  function FeedSpec(outbuf: string, data: string): (r: Fed)
    ensures Terminated(r.lines) + r.rest == outbuf + data
    ensures NoNewlines(r.lines) && '\n' !in r.rest
  {
    var parts := Split(outbuf + data, "\n");
    JoinNewlines(parts);
    forall k | 0 <= k < |parts| ensures '\n' !in parts[k] {
      ContainsChar(parts[k], '\n');
    }
    Fed(parts[..|parts| - 1], parts[|parts| - 1])
  }

  lemma NewlineInLines(lines: seq<string>, rest: string)
    requires lines != []
    ensures '\n' in Terminated(lines) + rest
  {
    var s := Terminated(lines) + rest;
    assert s == lines[0] + "\n" + (Terminated(lines[1..]) + rest);
    assert s[|lines[0]|] == '\n';
  }

  /** In `x + "\n" + u` with a newline-free `x`, the first newline is at `|x|`. */
  lemma FirstNewline(x: string, u: string)
    requires '\n' !in x
    ensures (x + "\n" + u)[|x|] == '\n'
    ensures forall i :: 0 <= i < |x| ==> (x + "\n" + u)[i] != '\n'
  {
    forall i | 0 <= i < |x| ensures (x + "\n" + u)[i] != '\n' {
      assert (x + "\n" + u)[i] == x[i];
    }
  }

  /** Lines followed by newlines and a newline-free rest can be cut up in one way only,
      so the contract of `FeedSpec` determines its result. */
  lemma {:induction false} LinesUnique(a: seq<string>, b: string, c: seq<string>, d: string)
    requires Terminated(a) + b == Terminated(c) + d
    requires NoNewlines(a) && NoNewlines(c) && '\n' !in b && '\n' !in d
    ensures a == c && b == d
    decreases |a|
  {
    if a == [] && c == [] {
      assert b == Terminated(a) + b && d == Terminated(c) + d;
    } else if a == [] {
      NewlineInLines(c, d);
      assert false;
    } else if c == [] {
      NewlineInLines(a, b);
      assert false;
    } else {
      var x, y := a[0], c[0];
      var u, v := Terminated(a[1..]) + b, Terminated(c[1..]) + d;
      var s := x + "\n" + u;
      assert s == Terminated(a) + b;
      assert s == y + "\n" + v;
      FirstNewline(x, u);
      FirstNewline(y, v);
      assert |x| == |y|;
      assert x == s[..|x|] == y;
      assert u == s[|x| + 1..] == v;
      LinesUnique(a[1..], b, c[1..], d);
      assert a == [x] + a[1..] && c == [y] + c[1..];
    }
  }

  /** Data without a newline only extends the buffer. */
  lemma FeedWithoutNewline(outbuf: string, data: string)
    requires '\n' !in outbuf && '\n' !in data
    ensures FeedSpec(outbuf, data) == Fed([], outbuf + data)
  {
    var r := FeedSpec(outbuf, data);
    assert '\n' !in outbuf + data;
    LinesUnique(r.lines, r.rest, [], outbuf + data);
  }

  /** A read that brings a newline completes the buffered line; what follows the
      newline is kept. */
  lemma FeedCompletesLine(outbuf: string, head: string, tail: string)
    requires '\n' !in outbuf && '\n' !in head && '\n' !in tail
    ensures FeedSpec(outbuf, head + "\n" + tail) == Fed([outbuf + head], tail)
  {
    var r := FeedSpec(outbuf, head + "\n" + tail);
    assert Terminated([outbuf + head]) == outbuf + head + "\n";
    assert NoNewlines([outbuf + head]);
    LinesUnique(r.lines, r.rest, [outbuf + head], tail);
  }

  /** A line arriving in two reads, `he` and then `llo\nworld`, comes out once the
      newline arrives, and `world` is kept. */
  lemma FeedInTwoReads()
    ensures FeedSpec("", "he") == Fed([], "he")
    ensures FeedSpec("he", "llo\nworld") == Fed(["hello"], "world")
  {
    FirstRead();
    SecondRead();
  }

  lemma FirstRead()
    ensures FeedSpec("", "he") == Fed([], "he")
  {
    FeedWithoutNewline("", "he");
    assert "" + "he" == "he";
  }

  lemma SecondRead()
    ensures FeedSpec("he", "llo\nworld") == Fed(["hello"], "world")
  {
    var data := "llo" + "\n" + "world";
    assert data == "llo\nworld";
    FeedCompletesLine("he", "llo", "world");
    assert "he" + "llo" == "hello";
  }

  /** A newline-free line written with `sendline` is read back, line by line, as exactly that line. */
  lemma SendLineReadBack(line: string)
    requires '\n' !in line
    ensures FeedSpec("", SendLine(line)) == Fed([line], "")
  {
    var r := FeedSpec("", SendLine(line));
    assert Terminated([line]) == line + "\n";
    assert NoNewlines([line]);
    LinesUnique(r.lines, r.rest, [line], "");
  }

  function Outputs(lines: seq<string>): (events: seq<Event>)
    ensures |events| == |lines|
    ensures forall k :: 0 <= k < |lines| ==> events[k] == Output(lines[k])
  {
    if |lines| == 0 then [] else [Output(lines[0])] + Outputs(lines[1..])
  }

  /** The texts of the `Output` events, in order. */
  function OutputTexts(events: seq<Event>): seq<string> {
    if |events| == 0 then []
    else (if events[0].Output? then [events[0].text] else []) + OutputTexts(events[1..])
  }

  /** The texts of the `Command` events, in order. */
  function CommandTexts(events: seq<Event>): seq<string> {
    if |events| == 0 then []
    else (if events[0].Command? then [events[0].text] else []) + CommandTexts(events[1..])
  }

  /** All the child's output the loop read, in order. */
  function Received(obs: seq<Observation>): string {
    if |obs| == 0 then "" else (if obs[0].Arrived? then obs[0].data else "") + Received(obs[1..])
  }

  /** All the lines the operator typed, in order. */
  function TypedLines(obs: seq<Observation>): seq<string> {
    if |obs| == 0 then [] else (if obs[0].Typed? then [obs[0].line] else []) + TypedLines(obs[1..])
  }

  lemma EventTextsAppend(a: seq<Event>, b: seq<Event>)
    ensures OutputTexts(a + b) == OutputTexts(a) + OutputTexts(b)
    ensures CommandTexts(a + b) == CommandTexts(a) + CommandTexts(b)
  {
    OutputTextsAppend(a, b);
    CommandTextsAppend(a, b);
  }

  lemma {:induction false} OutputTextsAppend(a: seq<Event>, b: seq<Event>)
    ensures OutputTexts(a + b) == OutputTexts(a) + OutputTexts(b)
    decreases |a|
  {
    if |a| == 0 {
      assert a + b == b;
    } else {
      assert (a + b)[0] == a[0] && (a + b)[1..] == a[1..] + b;
      OutputTextsAppend(a[1..], b);
      var head := if a[0].Output? then [a[0].text] else [];
      assert OutputTexts(a + b) == head + OutputTexts(a[1..] + b);
      assert head + (OutputTexts(a[1..]) + OutputTexts(b)) == (head + OutputTexts(a[1..])) + OutputTexts(b);
    }
  }

  lemma {:induction false} CommandTextsAppend(a: seq<Event>, b: seq<Event>)
    ensures CommandTexts(a + b) == CommandTexts(a) + CommandTexts(b)
    decreases |a|
  {
    if |a| == 0 {
      assert a + b == b;
    } else {
      assert (a + b)[0] == a[0] && (a + b)[1..] == a[1..] + b;
      CommandTextsAppend(a[1..], b);
      var head := if a[0].Command? then [a[0].text] else [];
      assert CommandTexts(a + b) == head + CommandTexts(a[1..] + b);
      assert head + (CommandTexts(a[1..]) + CommandTexts(b)) == (head + CommandTexts(a[1..])) + CommandTexts(b);
    }
  }

  lemma {:induction false} OutputsTexts(lines: seq<string>)
    ensures OutputTexts(Outputs(lines)) == lines
    ensures CommandTexts(Outputs(lines)) == []
    decreases |lines|
  {
    if |lines| > 0 {
      OutputsTexts(lines[1..]);
    }
  }

  lemma ObservedAppend(a: seq<Observation>, o: Observation)
    ensures Received(a + [o]) == Received(a) + (if o.Arrived? then o.data else "")
    ensures TypedLines(a + [o]) == TypedLines(a) + (if o.Typed? then [o.line] else [])
  {
    ReceivedAppend(a, o);
    TypedLinesAppend(a, o);
  }

  lemma {:induction false} ReceivedAppend(a: seq<Observation>, o: Observation)
    ensures Received(a + [o]) == Received(a) + (if o.Arrived? then o.data else "")
    decreases |a|
  {
    var last := if o.Arrived? then o.data else "";
    if |a| == 0 {
      assert a + [o] == [o] && [o][1..] == [];
      assert Received([o]) == last + "";
      assert last + "" == "" + last;
    } else {
      assert (a + [o])[0] == a[0] && (a + [o])[1..] == a[1..] + [o];
      ReceivedAppend(a[1..], o);
      var head := if a[0].Arrived? then a[0].data else "";
      assert Received(a + [o]) == head + Received(a[1..] + [o]);
      assert head + (Received(a[1..]) + last) == (head + Received(a[1..])) + last;
    }
  }

  lemma {:induction false} TypedLinesAppend(a: seq<Observation>, o: Observation)
    ensures TypedLines(a + [o]) == TypedLines(a) + (if o.Typed? then [o.line] else [])
    decreases |a|
  {
    var last := if o.Typed? then [o.line] else [];
    if |a| == 0 {
      assert a + [o] == [o] && [o][1..] == [];
      assert TypedLines([o]) == last + [];
      assert last + [] == [] + last;
    } else {
      assert (a + [o])[0] == a[0] && (a + [o])[1..] == a[1..] + [o];
      TypedLinesAppend(a[1..], o);
      var head := if a[0].Typed? then [a[0].line] else [];
      assert TypedLines(a + [o]) == head + TypedLines(a[1..] + [o]);
      assert head + (TypedLines(a[1..]) + last) == (head + TypedLines(a[1..])) + last;
    }
  }

  /** The events the loop yields and the buffer it keeps. */
  datatype Pumped = Pumped(events: seq<Event>, outbuf: string)

  /** One more round of the loop, after `p`. */
  function Extend(p: Pumped, o: Observation): Pumped {
    match o
    case Typed(line) => Pumped(p.events + [Command(line)], p.outbuf)
    case Arrived(data) =>
      var fed := FeedSpec(p.outbuf, data);
      Pumped(p.events + Outputs(fed.lines), fed.rest)
  }

  /** The events `Forign.__iter__` yields for a run of observations, starting from buffer `outbuf`. */
  function Pump(outbuf: string, obs: seq<Observation>): Pumped
    decreases |obs|
  {
    if |obs| == 0 then Pumped([], outbuf)
    else Extend(Pump(outbuf, obs[..|obs| - 1]), obs[|obs| - 1])
  }

  /** A round depends on the buffer only, not on the events yielded before it. */
  lemma ExtendAfter(e: seq<Event>, p: Pumped, o: Observation)
    ensures Extend(Pumped(e + p.events, p.outbuf), o) == Pumped(e + Extend(p, o).events, Extend(p, o).outbuf)
  {
    match o
    case Typed(line) =>
      assert (e + p.events) + [Command(line)] == e + (p.events + [Command(line)]);
    case Arrived(data) =>
      var t := Outputs(FeedSpec(p.outbuf, data).lines);
      assert (e + p.events) + t == e + (p.events + t);
  }

  /** The loop carries nothing but its buffer from one round to the next: running it
      over `a` and then `b` yields the events of `a`, then those of `b` started from
      the buffer `a` left. */
  lemma {:induction false} PumpAppend(outbuf: string, a: seq<Observation>, b: seq<Observation>)
    ensures var first := Pump(outbuf, a);
      var second := Pump(first.outbuf, b);
      Pump(outbuf, a + b) == Pumped(first.events + second.events, second.outbuf)
    decreases |b|
  {
    var first := Pump(outbuf, a);
    if |b| == 0 {
      assert a + b == a;
      assert first.events + [] == first.events;
    } else {
      var init, o := b[..|b| - 1], b[|b| - 1];
      assert (a + b)[..|a + b| - 1] == a + init;
      assert (a + b)[|a + b| - 1] == o;
      PumpAppend(outbuf, a, init);
      var mid := Pump(first.outbuf, init);
      ExtendAfter(first.events, mid, o);
    }
  }

  /** What the loop promises about the events it yielded so far. */
  ghost predicate Conserves(outbuf: string, obs: seq<Observation>, p: Pumped) {
    && Terminated(OutputTexts(p.events)) + p.outbuf == outbuf + Received(obs)
    && NoNewlines(OutputTexts(p.events)) && '\n' !in p.outbuf
    && CommandTexts(p.events) == TypedLines(obs)
  }

  /** The loop never drops or reorders the child's output: the `Output` lines, each
      with its newline, followed by the kept fragment, are the old fragment followed by
      everything read; and the commands are the typed lines, in order. */
  lemma {:induction false} PumpPreserves(outbuf: string, obs: seq<Observation>)
    requires '\n' !in outbuf
    ensures Conserves(outbuf, obs, Pump(outbuf, obs))
    decreases |obs|
  {
    if |obs| > 0 {
      var init, o := obs[..|obs| - 1], obs[|obs| - 1];
      assert obs == init + [o];
      PumpPreserves(outbuf, init);
      ObservedAppend(init, o);
      match o
      case Typed(line) => PumpTypedStep(outbuf, init, line);
      case Arrived(data) => PumpArrivedStep(outbuf, init, data);
    }
  }

  lemma PumpTypedStep(outbuf: string, init: seq<Observation>, line: string)
    requires Conserves(outbuf, init, Pump(outbuf, init))
    requires Received(init + [Typed(line)]) == Received(init) + ""
    requires TypedLines(init + [Typed(line)]) == TypedLines(init) + [line]
    ensures Conserves(outbuf, init + [Typed(line)], Pump(outbuf, init + [Typed(line)]))
  {
    var prev := Pump(outbuf, init);
    assert (init + [Typed(line)])[..|init|] == init;
    assert Pump(outbuf, init + [Typed(line)]) == Pumped(prev.events + [Command(line)], prev.outbuf);
    EventTextsAppend(prev.events, [Command(line)]);
    assert OutputTexts([Command(line)]) == [] && CommandTexts([Command(line)]) == [line];
    assert OutputTexts(prev.events) + [] == OutputTexts(prev.events);
    assert Received(init) + "" == Received(init);
  }

  lemma PumpArrivedStep(outbuf: string, init: seq<Observation>, data: string)
    requires Conserves(outbuf, init, Pump(outbuf, init))
    requires Received(init + [Arrived(data)]) == Received(init) + data
    requires TypedLines(init + [Arrived(data)]) == TypedLines(init) + []
    ensures Conserves(outbuf, init + [Arrived(data)], Pump(outbuf, init + [Arrived(data)]))
  {
    var prev := Pump(outbuf, init);
    var fed := FeedSpec(prev.outbuf, data);
    assert (init + [Arrived(data)])[..|init|] == init;
    assert Pump(outbuf, init + [Arrived(data)]) == Pumped(prev.events + Outputs(fed.lines), fed.rest);
    ArrivedConserves(outbuf, init, data, prev, fed);
  }

  lemma ArrivedConserves(outbuf: string, init: seq<Observation>, data: string, prev: Pumped, fed: Fed)
    requires Conserves(outbuf, init, prev)
    requires Terminated(fed.lines) + fed.rest == prev.outbuf + data
    requires NoNewlines(fed.lines) && '\n' !in fed.rest
    requires Received(init + [Arrived(data)]) == Received(init) + data
    requires TypedLines(init + [Arrived(data)]) == TypedLines(init) + []
    ensures Conserves(outbuf, init + [Arrived(data)], Pumped(prev.events + Outputs(fed.lines), fed.rest))
  {
    var events := prev.events + Outputs(fed.lines);
    var before := OutputTexts(prev.events);
    EventTextsAppend(prev.events, Outputs(fed.lines));
    OutputsTexts(fed.lines);
    assert OutputTexts(events) == before + fed.lines;
    assert CommandTexts(events) == CommandTexts(prev.events) + [];
    ConservedStep(before, prev.outbuf, fed.lines, fed.rest, outbuf + Received(init), data);
    NoNewlinesAppend(before, fed.lines);
    assert TypedLines(init) + [] == TypedLines(init);
    assert CommandTexts(prev.events) + [] == CommandTexts(prev.events);
    assert outbuf + Received(init) + data == outbuf + (Received(init) + data);
  }

  lemma ConservedStep(before: seq<string>, buf: string, lines: seq<string>, rest: string, seen: string, data: string)
    requires Terminated(before) + buf == seen
    requires Terminated(lines) + rest == buf + data
    ensures Terminated(before + lines) + rest == seen + data
  {
    TerminatedAppend(before, lines);
    calc {
      Terminated(before + lines) + rest;
      Terminated(before) + (Terminated(lines) + rest);
      Terminated(before) + (buf + data);
      (Terminated(before) + buf) + data;
    }
  }

  lemma NoNewlinesAppend(a: seq<string>, b: seq<string>)
    requires NoNewlines(a) && NoNewlines(b)
    ensures NoNewlines(a + b)
  {
    forall k | 0 <= k < |a + b| ensures '\n' !in (a + b)[k] {
      if k >= |a| {
        assert (a + b)[k] == b[k - |a|];
      }
    }
  }

  /** The child-side state of `Forign`: the fragment of output not yet ended by a newline. */
  class ChildChannel {
    var outbuf: string

    ghost predicate Valid()
      reads this
    {
      '\n' !in outbuf
    }

    constructor ()
      ensures Valid() && outbuf == ""
    {
      outbuf := "";
    }

    /** One read of the child's output: returns the complete lines, keeps the rest. */
    method Feed(data: string) returns (lines: seq<string>)
      requires Valid()
      modifies this
      ensures Valid()
      ensures Fed(lines, outbuf) == FeedSpec(old(outbuf), data)
      ensures Terminated(lines) + outbuf == old(outbuf) + data
    {
      var parts := Split(outbuf + data, "\n");
      assert FeedSpec(outbuf, data) == Fed(parts[..|parts| - 1], parts[|parts| - 1]);
      outbuf := parts[|parts| - 1];
      lines := parts[..|parts| - 1];
    }

    /** The loop of `Forign.__iter__` over what it observes: a typed line becomes a
        `Command`, and every line completed by a read becomes an `Output`, in order. */
    method Events(obs: seq<Observation>) returns (events: seq<Event>)
      requires Valid()
      modifies this
      ensures Valid()
      ensures Pumped(events, outbuf) == Pump(old(outbuf), obs)
      ensures Conserves(old(outbuf), obs, Pumped(events, outbuf))
    {
      events := [];
      for k := 0 to |obs|
        invariant Valid()
        invariant Pumped(events, outbuf) == Pump(old(outbuf), obs[..k])
      {
        assert obs[..k + 1][..k] == obs[..k];
        match obs[k]
        case Typed(line) =>
          events := events + [Command(line)];
        case Arrived(data) =>
          var lines := Feed(data);
          events := events + Outputs(lines);
      }
      assert obs[..|obs|] == obs;
      PumpPreserves(old(outbuf), obs);
    }
  }
}
