/** The main loop of `proxy` (term_proxy.py:161-183): every event from the child
    channel is handled in turn. A typed command goes to the child; an output line goes
    through the rules, whose yielded actions are folded into effects, and the raw line
    is shown unless a `replace` or `filter` action was among them. */
module Proxy {
  import opened Wrappers
  import opened Text
  import opened Format
  import opened Channel
  import opened Rules

  /** What the proxy does, in order. */
  datatype Effect =
    | Send(text: string)                // `forign.sendline(text)`: `text` and a newline to the child
    | Show(text: string)                // a line printed to the user
    | Call(name: string, line: string)  // `user_functions.<name>(line, forign.sendline)`
    | Crash(failure: MatchFailure)      // the exception `matches` raised, which ends the proxy

  /** The effect of one pair yielded for output line `line` (term_proxy.py:170-180). */
  function ActionEffect(f: Fired, line: string): seq<Effect> {
    match f.action
    case Respond => [Send(f.text)]
    case Replace => [Show(f.text)]
    case Print => [Show(f.text)]
    case Filter => []
    case Function => [Call(f.text, line)]
  }

  /** The effects of the yielded pairs, one after the other. */
  function ItemEffects(items: seq<Fired>, line: string): seq<Effect>
    decreases |items|
  {
    if |items| == 0 then []
    else ItemEffects(items[..|items| - 1], line) + ActionEffect(items[|items| - 1], line)
  }

  /** The actions that clear the `print_` flag. */
  predicate Suppressing(a: Action) {
    a == Replace || a == Filter
  }

  predicate Suppressed(items: seq<Fired>) {
    exists k :: 0 <= k < |items| && Suppressing(items[k].action)
  }

  /** The raw line is printed: `matches` ran to the end and no pair cleared `print_`. */
  predicate RawShown(y: Yields) {
    y.failure.None? && !Suppressed(y.items)
  }

  /** The reaction to one output line: the effects of the pairs `matches` yields, then
      either the exception it raises or, when `print_` is still set, the line itself. */
  function Reaction(line: string, y: Yields): seq<Effect> {
    ItemEffects(y.items, line) +
      (if y.failure.Some? then [Crash(y.failure.value)]
       else if Suppressed(y.items) then []
       else [Show(line)])
  }

  /** The `elif event is OUTPUT` branch (term_proxy.py:166-182), for the pairs `y` that
      `patterns.matches(content)` yields. */
  method React(line: string, y: Yields) returns (effects: seq<Effect>)
    ensures effects == Reaction(line, y)
  {
    effects := [];
    var printRaw := true;
    for k := 0 to |y.items|
      invariant effects == ItemEffects(y.items[..k], line)
      invariant printRaw <==> !Suppressed(y.items[..k])
    {
      var f := y.items[k];
      assert y.items[..k + 1][..k] == y.items[..k] && y.items[..k + 1][k] == f;
      SuppressedSnoc(y.items[..k], f);
      assert y.items[..k] + [f] == y.items[..k + 1];
      match f.action
      case Respond =>
        effects := effects + [Send(f.text)];
      case Replace =>
        effects := effects + [Show(f.text)];
        printRaw := false;
      case Print =>
        effects := effects + [Show(f.text)];
      case Filter =>
        assert effects + [] == effects;
        printRaw := false;
      case Function =>
        effects := effects + [Call(f.text, line)];
    }
    assert y.items[..|y.items|] == y.items;
    match y.failure
    case Some(e) =>
      effects := effects + [Crash(e)];
    case None =>
      if printRaw {
        effects := effects + [Show(line)];
      } else {
        assert effects + [] == effects;
      }
  }

  lemma SuppressedSnoc(items: seq<Fired>, f: Fired)
    ensures Suppressed(items + [f]) <==> Suppressed(items) || Suppressing(f.action)
  {
    var all := items + [f];
    if Suppressing(f.action) {
      assert all[|items|] == f;
    }
    if Suppressed(items) {
      var k :| 0 <= k < |items| && Suppressing(items[k].action);
      assert all[k] == items[k];
    }
    if Suppressed(all) {
      var k :| 0 <= k < |all| && Suppressing(all[k].action);
      if k < |items| {
        assert all[k] == items[k];
      }
    }
  }

  // ---------------------------------------------------------------------------
  // What reaches the child, the user and the user functions

  /** The texts sent to the child, in order. */
  function Sends(effects: seq<Effect>): seq<string>
    decreases |effects|
  {
    if |effects| == 0 then []
    else
      var last := effects[|effects| - 1];
      Sends(effects[..|effects| - 1]) + (if last.Send? then [last.text] else [])
  }

  /** The lines printed to the user, in order. */
  function Displays(effects: seq<Effect>): seq<string>
    decreases |effects|
  {
    if |effects| == 0 then []
    else
      var last := effects[|effects| - 1];
      Displays(effects[..|effects| - 1]) + (if last.Show? then [last.text] else [])
  }

  /** The user functions called, with the line each is given, in order. */
  function Calls(effects: seq<Effect>): seq<(string, string)>
    decreases |effects|
  {
    if |effects| == 0 then []
    else
      var last := effects[|effects| - 1];
      Calls(effects[..|effects| - 1]) + (if last.Call? then [(last.name, last.line)] else [])
  }

  /** Everything written to the child's standard input: each sent text and a newline. */
  function Wire(effects: seq<Effect>): string {
    Terminated(Sends(effects))
  }

  lemma {:induction false} ChannelsAppend(a: seq<Effect>, b: seq<Effect>)
    ensures Sends(a + b) == Sends(a) + Sends(b)
    ensures Displays(a + b) == Displays(a) + Displays(b)
    ensures Calls(a + b) == Calls(a) + Calls(b)
    decreases |b|
  {
    if |b| == 0 {
      assert a + b == a;
    } else {
      var init := b[..|b| - 1];
      assert (a + b)[..|a + b| - 1] == a + init && (a + b)[|a + b| - 1] == b[|b| - 1];
      ChannelsAppend(a, init);
    }
  }

  /** The texts of the `respond` pairs, in yield order. */
  function Responses(items: seq<Fired>): seq<string>
    decreases |items|
  {
    if |items| == 0 then []
    else
      var last := items[|items| - 1];
      Responses(items[..|items| - 1]) + (if last.action == Respond then [last.text] else [])
  }

  /** The texts of the `replace` and `print` pairs, in yield order. */
  function Printed(items: seq<Fired>): seq<string>
    decreases |items|
  {
    if |items| == 0 then []
    else
      var last := items[|items| - 1];
      Printed(items[..|items| - 1]) + (if last.action in {Replace, Print} then [last.text] else [])
  }

  /** The `function` pairs: the function named by the text, and the line it is given. */
  function Invoked(items: seq<Fired>, line: string): seq<(string, string)>
    decreases |items|
  {
    if |items| == 0 then []
    else
      var last := items[|items| - 1];
      Invoked(items[..|items| - 1], line) + (if last.action == Function then [(last.text, line)] else [])
  }

  /** One pair: what it sends, prints and calls. */
  lemma ActionChannels(f: Fired, line: string)
    ensures Sends(ActionEffect(f, line)) == (if f.action == Respond then [f.text] else [])
    ensures Displays(ActionEffect(f, line)) == (if f.action in {Replace, Print} then [f.text] else [])
    ensures Calls(ActionEffect(f, line)) == (if f.action == Function then [(f.text, line)] else [])
    ensures forall k :: 0 <= k < |ActionEffect(f, line)| ==> !ActionEffect(f, line)[k].Crash?
  {
    var e := ActionEffect(f, line);
    assert e == [] || e[..0] == [];
  }

  /** The yielded pairs alone: each `respond` is sent and each `replace` and `print`
      is printed, in yield order, each `function` pair calls its function with the
      output line, and none of them ends the proxy. */
  lemma {:induction false} ItemChannels(items: seq<Fired>, line: string)
    ensures Sends(ItemEffects(items, line)) == Responses(items)
    ensures Displays(ItemEffects(items, line)) == Printed(items)
    ensures Calls(ItemEffects(items, line)) == Invoked(items, line)
    ensures forall k :: 0 <= k < |ItemEffects(items, line)| ==> !ItemEffects(items, line)[k].Crash?
    decreases |items|
  {
    if |items| > 0 {
      var init, last := items[..|items| - 1], items[|items| - 1];
      ItemChannels(init, line);
      var before, e := ItemEffects(init, line), ActionEffect(last, line);
      ChannelsAppend(before, e);
      ActionChannels(last, line);
      assert ItemEffects(items, line) == before + e;
      forall k | 0 <= k < |before + e| ensures !(before + e)[k].Crash? {
        if k < |before| {
          assert (before + e)[k] == before[k];
        } else {
          assert (before + e)[k] == e[k - |before|];
        }
      }
    }
  }

  /** The reaction to one output line (term_proxy.py:166-182): the child is sent the
      `respond` texts; the user sees the `replace` and `print` texts, in yield order,
      and after them the raw line exactly when `matches` finished and no `replace` or
      `filter` pair was yielded; the user functions are called for the `function`
      pairs; and the proxy ends, as its last effect, exactly when `matches` raises. */
  lemma ReactionChannels(line: string, y: Yields)
    ensures Sends(Reaction(line, y)) == Responses(y.items)
    ensures Displays(Reaction(line, y)) == Printed(y.items) + (if RawShown(y) then [line] else [])
    ensures Calls(Reaction(line, y)) == Invoked(y.items, line)
    ensures Crashed(Reaction(line, y)) <==> y.failure.Some?
    ensures forall k :: 0 <= k < |Reaction(line, y)| - 1 ==> !Reaction(line, y)[k].Crash?
  {
    var items := ItemEffects(y.items, line);
    var tail := if y.failure.Some? then [Crash(y.failure.value)]
                else if Suppressed(y.items) then [] else [Show(line)];
    ItemChannels(y.items, line);
    ChannelsAppend(items, tail);
    assert tail == [] || tail[..0] == [];
    assert Reaction(line, y) == items + tail;
    forall k | 0 <= k < |Reaction(line, y)| - 1 ensures !Reaction(line, y)[k].Crash? {
      assert k < |items|;
      assert Reaction(line, y)[k] == items[k];
    }
    if y.failure.None? && |tail| == 0 && |items| > 0 {
      assert Reaction(line, y)[|Reaction(line, y)| - 1] == items[|items| - 1];
    }
  }

  // ---------------------------------------------------------------------------
  // The loop over events

  /** The proxy has ended: its last effect is the exception of `matches`. */
  predicate Crashed(effects: seq<Effect>) {
    |effects| > 0 && effects[|effects| - 1].Crash?
  }

  /** An effect list that ends the proxy, if at all, only on its last effect. */
  predicate CrashesLast(effects: seq<Effect>) {
    forall k :: 0 <= k < |effects| - 1 ==> !effects[k].Crash?
  }

  /** The body of the loop for one event (term_proxy.py:165-182). */
  function Handle(engine: Engine, master: string, rules: seq<Rule>, order: seq<nat>, ev: Event): seq<Effect>
    requires IsVisitOrder(order, |rules|)
  {
    match ev
    case Command(text) => [Send(text)]
    case Output(text) => Reaction(text, MatchLine(engine, master, rules, text, order))
  }

  /** Handling one event ends the proxy, if at all, on its last effect. */
  lemma HandleCrashesLast(engine: Engine, master: string, rules: seq<Rule>, order: seq<nat>, ev: Event)
    requires IsVisitOrder(order, |rules|)
    ensures CrashesLast(Handle(engine, master, rules, order, ev))
  {
    if ev.Output? {
      ReactionChannels(ev.text, MatchLine(engine, master, rules, ev.text, order));
    }
  }

  /** The effect lists of the events, one per event. */
  function Handled(engine: Engine, master: string, rules: seq<Rule>, order: seq<nat>, events: seq<Event>)
    : (handled: seq<seq<Effect>>)
    requires IsVisitOrder(order, |rules|)
    ensures |handled| == |events|
  {
    seq(|events|, k requires 0 <= k < |events| => Handle(engine, master, rules, order, events[k]))
  }

  /** Effect lists taken one after the other until one ends the proxy. */
  function Steps(handled: seq<seq<Effect>>): seq<Effect>
    decreases |handled|
  {
    if |handled| == 0 then []
    else
      var prev := Steps(handled[..|handled| - 1]);
      if Crashed(prev) then prev else prev + handled[|handled| - 1]
  }

  /** The effects of the loop over `events`: each event is handled in turn until one
      ends the proxy. */
  function RunSpec(engine: Engine, master: string, rules: seq<Rule>, order: seq<nat>, events: seq<Event>): seq<Effect>
    requires IsVisitOrder(order, |rules|)
  {
    Steps(Handled(engine, master, rules, order, events))
  }

  lemma StepsSnoc(handled: seq<seq<Effect>>, h: seq<Effect>)
    ensures Steps(handled + [h]) == if Crashed(Steps(handled)) then Steps(handled) else Steps(handled) + h
  {
    assert (handled + [h])[..|handled|] == handled;
  }

  lemma {:induction false} StepsStopAtCrash(a: seq<seq<Effect>>, b: seq<seq<Effect>>)
    requires Crashed(Steps(a))
    ensures Steps(a + b) == Steps(a)
    decreases |b|
  {
    if |b| == 0 {
      assert a + b == a;
    } else {
      var init, h := b[..|b| - 1], b[|b| - 1];
      assert a + b == (a + init) + [h];
      StepsStopAtCrash(a, init);
      StepsSnoc(a + init, h);
    }
  }

  lemma CrashedAppend(x: seq<Effect>, y: seq<Effect>)
    ensures Crashed(x + y) == if |y| > 0 then Crashed(y) else Crashed(x)
  {
    if |y| > 0 {
      assert (x + y)[|x + y| - 1] == y[|y| - 1];
    } else {
      assert x + y == x;
    }
  }

  lemma {:induction false} StepsAppend(a: seq<seq<Effect>>, b: seq<seq<Effect>>)
    requires !Crashed(Steps(a))
    ensures Steps(a + b) == Steps(a) + Steps(b)
    decreases |b|
  {
    if |b| == 0 {
      assert a + b == a;
      assert Steps(a) + [] == Steps(a);
    } else {
      var init, h := b[..|b| - 1], b[|b| - 1];
      assert a + b == (a + init) + [h];
      assert b == init + [h];
      StepsAppend(a, init);
      StepsSnoc(a + init, h);
      StepsSnoc(init, h);
      JoinStep(Steps(a), Steps(init), h, Steps(a + b), Steps(b));
    }
  }

  /** One more list after `first + mid`, where `first` has not ended the proxy. */
  lemma JoinStep(first: seq<Effect>, mid: seq<Effect>, h: seq<Effect>, x: seq<Effect>, y: seq<Effect>)
    requires !Crashed(first)
    requires x == if Crashed(first + mid) then first + mid else first + mid + h
    requires y == if Crashed(mid) then mid else mid + h
    ensures x == first + y
  {
    CrashedAppend(first, mid);
    if |mid| == 0 {
      assert first + mid == first;
    }
    assert first + mid + h == first + (mid + h);
  }

  lemma {:induction false} StepsCrashLast(handled: seq<seq<Effect>>)
    requires forall k :: 0 <= k < |handled| ==> CrashesLast(handled[k])
    ensures CrashesLast(Steps(handled))
    decreases |handled|
  {
    if |handled| > 0 {
      var init, h := handled[..|handled| - 1], handled[|handled| - 1];
      assert forall k :: 0 <= k < |init| ==> init[k] == handled[k];
      StepsCrashLast(init);
      assert handled == init + [h];
      StepsSnoc(init, h);
      if !Crashed(Steps(init)) {
        CrashesLastAppend(Steps(init), h);
      }
    }
  }

  lemma CrashesLastAppend(prev: seq<Effect>, h: seq<Effect>)
    requires CrashesLast(prev) && !Crashed(prev) && CrashesLast(h)
    ensures CrashesLast(prev + h)
  {
    var effects := prev + h;
    forall k | 0 <= k < |effects| - 1 ensures !effects[k].Crash? {
      if k < |prev| {
        assert effects[k] == prev[k];
      } else {
        assert effects[k] == h[k - |prev|];
      }
    }
  }

  lemma HandledAppend(engine: Engine, master: string, rules: seq<Rule>, order: seq<nat>, a: seq<Event>, b: seq<Event>)
    requires IsVisitOrder(order, |rules|)
    ensures Handled(engine, master, rules, order, a + b)
         == Handled(engine, master, rules, order, a) + Handled(engine, master, rules, order, b)
  {
  }

  /** The loop handles one more event unless the proxy has already ended. */
  lemma RunSnoc(engine: Engine, master: string, rules: seq<Rule>, order: seq<nat>, events: seq<Event>, ev: Event)
    requires IsVisitOrder(order, |rules|)
    ensures RunSpec(engine, master, rules, order, events + [ev])
         == var prev := RunSpec(engine, master, rules, order, events);
            if Crashed(prev) then prev else prev + Handle(engine, master, rules, order, ev)
  {
    HandledAppend(engine, master, rules, order, events, [ev]);
    StepsSnoc(Handled(engine, master, rules, order, events), Handle(engine, master, rules, order, ev));
  }

  /** Once the proxy has ended, later events do nothing. */
  lemma RunStopsAtCrash(engine: Engine, master: string, rules: seq<Rule>, order: seq<nat>, a: seq<Event>, b: seq<Event>)
    requires IsVisitOrder(order, |rules|)
    requires Crashed(RunSpec(engine, master, rules, order, a))
    ensures RunSpec(engine, master, rules, order, a + b) == RunSpec(engine, master, rules, order, a)
  {
    HandledAppend(engine, master, rules, order, a, b);
    StepsStopAtCrash(Handled(engine, master, rules, order, a), Handled(engine, master, rules, order, b));
  }

  /** Events are handled independently: until the proxy ends, the effects of `a + b`
      are those of `a` followed by those of `b`. */
  lemma RunAppend(engine: Engine, master: string, rules: seq<Rule>, order: seq<nat>, a: seq<Event>, b: seq<Event>)
    requires IsVisitOrder(order, |rules|)
    requires !Crashed(RunSpec(engine, master, rules, order, a))
    ensures RunSpec(engine, master, rules, order, a + b)
         == RunSpec(engine, master, rules, order, a) + RunSpec(engine, master, rules, order, b)
  {
    HandledAppend(engine, master, rules, order, a, b);
    StepsAppend(Handled(engine, master, rules, order, a), Handled(engine, master, rules, order, b));
  }

  /** The proxy ends, if at all, on the last effect of the run. */
  lemma RunCrashesLast(engine: Engine, master: string, rules: seq<Rule>, order: seq<nat>, events: seq<Event>)
    requires IsVisitOrder(order, |rules|)
    ensures CrashesLast(RunSpec(engine, master, rules, order, events))
  {
    var handled := Handled(engine, master, rules, order, events);
    forall k | 0 <= k < |handled| ensures CrashesLast(handled[k]) {
      HandleCrashesLast(engine, master, rules, order, events[k]);
    }
    StepsCrashLast(handled);
  }

  /** The body of the loop of `proxy` for one event (term_proxy.py:165-182). */
  method HandleEvent(engine: Engine, master: string, rules: seq<Rule>, order: seq<nat>, ev: Event)
    returns (handled: seq<Effect>)
    requires IsVisitOrder(order, |rules|)
    ensures handled == Handle(engine, master, rules, order, ev)
  {
    match ev {
      case Command(text) =>
        handled := [Send(text)];
      case Output(text) =>
        var y := MatchLine(engine, master, rules, text, order);
        handled := React(text, y);
    }
  }

  /** The loop of `proxy` over the events of the child channel (term_proxy.py:164-182),
      with the rules of a `Patterns` object that was built without error. */
  method Run(p: Patterns, engine: Engine, order: seq<nat>, events: seq<Event>) returns (effects: seq<Effect>)
    requires p.failure.None? && IsVisitOrder(order, |p.rules|)
    ensures effects == RunSpec(engine, p.master, p.rules, order, events)
  {
    var master, rules := p.master, p.rules;
    effects := [];
    var k := 0;
    while k < |events| && !Crashed(effects)
      invariant 0 <= k <= |events|
      invariant effects == RunSpec(engine, master, rules, order, events[..k])
      decreases |events| - k
    {
      var handled := HandleEvent(engine, master, rules, order, events[k]);
      RunStep(engine, master, rules, order, events, k);
      effects := effects + handled;
      k := k + 1;
    }
    RunDone(engine, master, rules, order, events, k);
  }

  lemma RunStep(engine: Engine, master: string, rules: seq<Rule>, order: seq<nat>, events: seq<Event>, k: nat)
    requires IsVisitOrder(order, |rules|)
    requires k < |events| && !Crashed(RunSpec(engine, master, rules, order, events[..k]))
    ensures RunSpec(engine, master, rules, order, events[..k + 1])
         == RunSpec(engine, master, rules, order, events[..k]) + Handle(engine, master, rules, order, events[k])
  {
    assert events[..k + 1] == events[..k] + [events[k]];
    RunSnoc(engine, master, rules, order, events[..k], events[k]);
  }

  lemma RunDone(engine: Engine, master: string, rules: seq<Rule>, order: seq<nat>, events: seq<Event>, k: nat)
    requires IsVisitOrder(order, |rules|)
    requires k <= |events|
    requires k == |events| || Crashed(RunSpec(engine, master, rules, order, events[..k]))
    ensures RunSpec(engine, master, rules, order, events) == RunSpec(engine, master, rules, order, events[..k])
  {
    if k < |events| {
      assert events[..k] + events[k..] == events;
      RunStopsAtCrash(engine, master, rules, order, events[..k], events[k..]);
    } else {
      assert events[..k] == events;
    }
  }

  // ---------------------------------------------------------------------------
  // Consequences

  /** With no rules every event is echoed: a command is sent to the child and an
      output line is printed, one effect per event. */
  function Echoed(ev: Event): Effect {
    match ev
    case Command(text) => Send(text)
    case Output(text) => Show(text)
  }

  function Echo(events: seq<Event>): seq<Effect> {
    seq(|events|, k requires 0 <= k < |events| => Echoed(events[k]))
  }

  lemma HandleWithoutRules(engine: Engine, master: string, ev: Event)
    ensures Handle(engine, master, [], [], ev) == [Echoed(ev)]
  {
    if ev.Output? {
      var y := MatchLine(engine, master, [], ev.text, []);
      assert y.items == [] && y.failure == None;
      assert !Suppressed(y.items);
    }
  }

  lemma {:induction false} RunWithoutRules(engine: Engine, master: string, events: seq<Event>)
    ensures RunSpec(engine, master, [], [], events) == Echo(events)
    decreases |events|
  {
    if |events| > 0 {
      var init, ev := events[..|events| - 1], events[|events| - 1];
      RunWithoutRules(engine, master, init);
      assert events == init + [ev];
      RunSnoc(engine, master, [], [], init, ev);
      HandleWithoutRules(engine, master, ev);
      EchoSnoc(init, ev);
      EchoNeverCrashes(init);
    }
  }

  lemma EchoSnoc(init: seq<Event>, ev: Event)
    ensures Echo(init + [ev]) == Echo(init) + [Echoed(ev)]
  {
    var whole, left := Echo(init + [ev]), Echo(init);
    forall k | 0 <= k < |whole|
      ensures whole[k] == (left + [Echoed(ev)])[k]
    {
      if k < |init| {
        assert (init + [ev])[k] == init[k];
      }
    }
  }

  lemma EchoNeverCrashes(events: seq<Event>)
    ensures !Crashed(Echo(events))
  {
    var echo := Echo(events);
    if |echo| > 0 {
      assert echo[|echo| - 1] == Echoed(events[|events| - 1]);
    }
  }

  /** A typed command reaches the child verbatim, followed by one newline. */
  lemma CommandSentVerbatim(engine: Engine, master: string, rules: seq<Rule>, order: seq<nat>, text: string)
    requires IsVisitOrder(order, |rules|)
    ensures Handle(engine, master, rules, order, Command(text)) == [Send(text)]
    ensures Wire(Handle(engine, master, rules, order, Command(text))) == SendLine(text)
  {
    assert Sends([Send(text)]) == [text] by {
      assert [Send(text)][..0] == [];
    }
    assert Terminated([text]) == text + "\n" + Terminated([]) by {
      assert [text][1..] == [];
    }
  }

  /** A single rule whose translation is `{0}`, on a line that the combined pattern
      and the rule's own pattern both match with one group `g`: `respond` sends `g`,
      `replace` shows `g` instead of the line, `print` shows `g` and then the line,
      `filter` hides the line, and `function` calls the function named `g`. */
  lemma SingleRule(engine: Engine, master: string, pattern: string, action: Action, line: string, g: string)
    requires engine.matchAt(master, line).Some?
    requires engine.matchAt(pattern, line) == Some([Some(g)])
    ensures Handle(engine, master, [Rule(pattern, action, "{0}")], [0], Output(line))
         == ActionEffect(Fired(action, g), line) + (if Suppressing(action) then [] else [Show(line)])
  {
    var rules := [Rule(pattern, action, "{0}")];
    RenderFirstGroup(g);
    assert Fire(engine, rules[0], 0, line) == Ok(Fired(action, g));
    SingleRuleYields(engine, master, rules, line, Fired(action, g));
    ReactionToOne(line, Fired(action, g));
  }

  /** The translation `{0}` renders to the first group. */
  lemma RenderFirstGroup(g: string)
    ensures Render("{0}", [Some(g)]) == Ok(g)
  {
    assert "{0}" == "" + "{" + DecimalString(0) + "}" + "";
    RenderOneField("", 0, "", [Some(g)]);
    assert "" + GroupText(Some(g)) + "" == g;
  }

  lemma SingleRuleYields(engine: Engine, master: string, rules: seq<Rule>, line: string, f: Fired)
    requires |rules| == 1 && engine.matchAt(master, line).Some?
    requires Fire(engine, rules[0], 0, line) == Ok(f)
    ensures MatchLine(engine, master, rules, line, [0]) == Yields([f], None)
  {
    var y := MatchLine(engine, master, rules, line, [0]);
    assert Visit(engine, rules, line, [0][1..]) == Yields([], None);
  }

  lemma ReactionToOne(line: string, f: Fired)
    ensures Reaction(line, Yields([f], None))
         == ActionEffect(f, line) + (if Suppressing(f.action) then [] else [Show(line)])
  {
    assert [f][..0] == [];
    assert ItemEffects([f], line) == ActionEffect(f, line);
    assert Suppressed([f]) <==> Suppressing(f.action) by {
      if Suppressing(f.action) {
        assert Suppressing([f][0].action);
      }
    }
  }

  /** A `respond` rule with translation `{0}` writes exactly the group and a newline
      to the child. */
  lemma RespondWritesGroup(engine: Engine, master: string, pattern: string, line: string, g: string)
    requires engine.matchAt(master, line).Some?
    requires engine.matchAt(pattern, line) == Some([Some(g)])
    ensures Wire(Handle(engine, master, [Rule(pattern, Respond, "{0}")], [0], Output(line))) == SendLine(g)
  {
    SingleRule(engine, master, pattern, Respond, line, g);
    assert ActionEffect(Fired(Respond, g), line) == [Send(g)] && !Suppressing(Respond);
    assert [Send(g)] + [Show(line)] == [Send(g), Show(line)];
    WireOfReply(g, line);
  }

  lemma WireOfReply(g: string, line: string)
    ensures Wire([Send(g), Show(line)]) == SendLine(g)
  {
    var sent, shown := [Send(g)], [Show(line)];
    assert [Send(g), Show(line)] == sent + shown;
    ChannelsAppend(sent, shown);
    assert sent[..0] == [] && shown[..0] == [];
    assert Sends(sent) == [g] && Sends(shown) == [];
    assert Terminated([g]) == g + "\n" + Terminated([]) by {
      assert [g][1..] == [];
    }
    assert [g] + [] == [g];
  }

  /** When the combined pattern matches, the rules visited before the `j`-th fire,
      and the `j`-th visited rule's own pattern does not match, the proxy carries out
      the pairs of the earlier rules, in visiting order, and then ends on that rule:
      the line is not printed. */
  lemma OwnPatternMissEnds(engine: Engine, master: string, rules: seq<Rule>, order: seq<nat>, line: string, j: nat)
    requires IsVisitOrder(order, |rules|)
    requires engine.matchAt(master, line).Some?
    requires j < |order|
    requires forall k :: 0 <= k < j ==> Fire(engine, rules[order[k]], order[k], line).Ok?
    requires engine.matchAt(rules[order[j]].pattern, line).None?
    ensures var y := MatchLine(engine, master, rules, line, order);
      && |y.items| == j
      && (forall k :: 0 <= k < j ==> Ok(y.items[k]) == Fire(engine, rules[order[k]], order[k], line))
      && Handle(engine, master, rules, order, Output(line)) == ItemEffects(y.items, line) + [Crash(NoOwnMatch(order[j]))]
  {
    var y := MatchLine(engine, master, rules, line, order);
    assert Fire(engine, rules[order[j]], order[j], line) == Err(NoOwnMatch(order[j]));
    assert y.failure.Some? && |y.items| == j;
  }

  // ---------------------------------------------------------------------------
  // The whole program

  /** The error `Patterns(files)` raises, if any. */
  function Startup(engine: Engine, files: seq<string>): Option<LoadError> {
    var loaded := LoadAll(engine, files);
    if loaded.failure.Some? then loaded.failure
    else if engine.compiles(MasterSource(Codes(loaded.rules))) then None
    else Some(MasterRejected)
  }

  /** `proxy(ns)` (term_proxy.py:161-183) on the rules files `files` and the
      observations `obs` of the child channel: the rules are loaded, and when that
      succeeds every event the channel yields is handled in turn. */
  method Session(engine: Engine, files: seq<string>, order: seq<nat>, obs: seq<Observation>)
    returns (failure: Option<LoadError>, effects: seq<Effect>)
    requires IsVisitOrder(order, |LoadAll(engine, files).rules|)
    ensures failure == Startup(engine, files)
    ensures failure.Some? ==> effects == []
    ensures failure.None? ==>
      var rules := LoadAll(engine, files).rules;
      effects == RunSpec(engine, MasterSource(Codes(rules)), rules, order, Pump("", obs).events)
  {
    var patterns := new Patterns(engine, files);
    assert patterns.codes == Codes(patterns.rules);
    failure := patterns.failure;
    effects := [];
    if failure.None? {
      var forign := new ChildChannel();
      var events := forign.Events(obs);
      effects := Run(patterns, engine, order, events);
    }
  }
}
