/** Rule loading and dispatch: class `Patterns` (term_proxy.py:110-158).
    Regular expressions are left abstract: an `Engine` says which pattern texts
    compile and what an anchored match (`re.match`) of a pattern at the start of a
    line captures. */
module Rules {
  import opened Wrappers
  import opened Text
  import opened Format

  /** The regular-expression engine. `matchAt(pattern, line)` is `None` when the
      pattern does not match at the start of the line, and otherwise the groups it
      captured, in order, `None` for a group that took no part in the match. */
  datatype Engine = Engine(
    compiles: string -> bool,
    matchAt: (string, string) -> Option<seq<Option<string>>>)

  datatype Action = Respond | Replace | Filter | Print | Function

  /** The action names a rule may use (`Patterns.actions`). */
  const Actions: map<string, Action> :=
    map["respond" := Respond, "replace" := Replace, "filter" := Filter,
        "print" := Print, "function" := Function]

  /** A stored rule: the pattern text, the action, the translation template. */
  datatype Rule = Rule(pattern: string, action: Action, trans: string)

  // ---------------------------------------------------------------------------
  // The header line of a rules file

  /** `sep` can be what `pattern(.+)action\1translation` captures in `first`:
      `.` matches anything but a newline, and anything may follow `translation`. */
  predicate IsSeparator(first: string, sep: string) {
    |sep| > 0 && '\n' !in sep && IsPrefix("pattern" + sep + "action" + sep + "translation", first)
  }

  /** A separator is the text right after the word `pattern`. */
  lemma SeparatorsFollowKeyword(first: string)
    ensures forall sep :: IsSeparator(first, sep) ==>
      7 + |sep| <= |first| && first[7..7 + |sep|] == sep
  {
    forall sep | IsSeparator(first, sep)
      ensures 7 + |sep| <= |first| && first[7..7 + |sep|] == sep
    {
      var head := "pattern" + sep + "action" + sep + "translation";
      assert first[..|head|] == head;
      assert head[7..7 + |sep|] == sep;
      assert first[7..7 + |sep|] == first[..|head|][7..7 + |sep|];
    }
  }

  /** The greedy `.+` tries the longest candidate first and backs off one character
      at a time: the longest separator of length at most `k`. */
  function SeparatorSearch(first: string, k: nat): (r: Option<string>)
    ensures r.Some? ==> IsSeparator(first, r.value) && |r.value| <= k
    ensures r.Some? ==> forall sep :: |r.value| < |sep| <= k ==> !IsSeparator(first, sep)
    ensures r.None? ==> forall sep :: |sep| <= k ==> !IsSeparator(first, sep)
    decreases k
  {
    if k == 0 then None
    else if 7 + k <= |first| && IsSeparator(first, first[7..7 + k]) then Some(first[7..7 + k])
    else
      NoSeparatorOfLength(first, k);
      SeparatorSearch(first, k - 1)
  }

  lemma NoSeparatorOfLength(first: string, k: nat)
    requires !(7 + k <= |first| && IsSeparator(first, first[7..7 + k]))
    ensures forall sep :: |sep| == k ==> !IsSeparator(first, sep)
  {
    SeparatorsFollowKeyword(first);
  }

  /** The separator `Patterns.flpat` captures from the first line of a file
      (term_proxy.py:111, 127-131): the longest one, or `None` when the line does
      not match at all. */
  function HeaderSeparator(first: string): (r: Option<string>)
    ensures r.Some? ==> IsSeparator(first, r.value)
    ensures r.Some? ==> forall sep :: IsSeparator(first, sep) ==> |sep| <= |r.value|
    ensures r.None? <==> forall sep :: !IsSeparator(first, sep)
  {
    SeparatorsFollowKeyword(first);
    SeparatorSearch(first, |first|)
  }

  // ---------------------------------------------------------------------------
  // The lines of a rules file

  lemma NewlineOccurs(s: string)
    ensures forall j :: 0 <= j < |s| ==> (OccursAt(s, "\n", j) <==> s[j] == '\n')
  {
    forall j | 0 <= j < |s| ensures OccursAt(s, "\n", j) <==> s[j] == '\n' {
      assert s[j..j + 1] == [s[j]];
    }
  }

  /** A line as iterating over a file gives it: non-empty, and a newline only at its end. */
  predicate IsFileLine(l: string) {
    |l| > 0 && forall j :: 0 <= j < |l| - 1 ==> l[j] != '\n'
  }

  /** Every line but the last ends in a newline. */
  predicate NewlineEnded(lines: seq<string>) {
    forall k :: 0 <= k < |lines| - 1 ==> |lines[k]| > 0 && lines[k][|lines[k]| - 1] == '\n'
  }

  /** The lines `readline` and `for line in pf` give for a file's text: each keeps
      its newline, and only the last may lack one. */
  function FileLines(text: string): (lines: seq<string>)
    ensures Concat(lines) == text
    ensures forall k :: 0 <= k < |lines| ==> IsFileLine(lines[k])
    ensures NewlineEnded(lines)
    decreases |text|
  {
    if |text| == 0 then []
    else
      match Find(text, "\n")
      case None =>
        LastLine(text);
        [text]
      case Some(i) =>
        FirstLine(text, i);
        var rest := FileLines(text[i + 1..]);
        ConsLine(text[..i + 1], rest);
        assert text == text[..i + 1] + text[i + 1..];
        [text[..i + 1]] + rest
  }

  lemma LastLine(text: string)
    requires |text| > 0 && Find(text, "\n").None?
    ensures IsFileLine(text) && Concat([text]) == text
  {
    NewlineOccurs(text);
    ContainsChar(text, '\n');
    assert [text][1..] == [];
    assert text + "" == text;
  }

  lemma FirstLine(text: string, i: nat)
    requires Find(text, "\n") == Some(i)
    ensures i < |text| && IsFileLine(text[..i + 1]) && text[..i + 1][i] == '\n'
  {
    NewlineOccurs(text);
    var line := text[..i + 1];
    assert text[i..i + 1] == "\n";
    forall j | 0 <= j < i ensures line[j] != '\n' {
      assert !OccursAt(text, "\n", j);
    }
  }

  lemma ConsLine(line: string, rest: seq<string>)
    requires IsFileLine(line) && line[|line| - 1] == '\n'
    requires forall k :: 0 <= k < |rest| ==> IsFileLine(rest[k])
    requires NewlineEnded(rest)
    ensures forall k :: 0 <= k < |[line] + rest| ==> IsFileLine(([line] + rest)[k])
    ensures NewlineEnded([line] + rest)
    ensures Concat([line] + rest) == line + Concat(rest)
  {
    var all := [line] + rest;
    assert all[1..] == rest;
    forall k | 1 <= k < |all| ensures all[k] == rest[k - 1] { }
  }

  /** The lines of `lines` that contain `sep` (`if sep in line`, term_proxy.py:133). */
  function Selected(lines: seq<string>, sep: string): (picked: seq<string>)
    ensures forall k :: 0 <= k < |picked| ==> Contains(picked[k], sep) && picked[k] in lines
    ensures forall l :: l in lines && Contains(l, sep) ==> l in picked
    ensures |picked| <= |lines|
  {
    if |lines| == 0 then []
    else (if Contains(lines[0], sep) then [lines[0]] else []) + Selected(lines[1..], sep)
  }

  /** A single line is kept exactly when it contains the separator. */
  lemma SelectedOne(line: string, sep: string)
    ensures Selected([line], sep) == if Contains(line, sep) then [line] else []
  {
    assert [line][1..] == [];
  }

  /** Selection keeps the order of the file: the rows of two stretches of lines are
      the rows of the first followed by the rows of the second. */
  lemma {:induction false} SelectedAppend(a: seq<string>, b: seq<string>, sep: string)
    ensures Selected(a + b, sep) == Selected(a, sep) + Selected(b, sep)
    decreases |a|
  {
    if |a| > 0 {
      assert (a + b)[0] == a[0] && (a + b)[1..] == a[1..] + b;
      SelectedAppend(a[1..], b, sep);
    } else {
      assert a + b == b;
    }
  }

  /** One selected line as a row: without its last character, split on the
      separator. Joining the fields with the separator gives that text back, and no
      field contains the separator. */
  function RowOf(line: string, sep: string): (row: seq<string>)
    requires |sep| > 0 && Contains(line, sep)
    ensures |line| > 0 && Join(row, sep) == line[..|line| - 1]
    ensures forall f :: 0 <= f < |row| ==> !Contains(row[f], sep)
    ensures forall f :: 0 <= f < |row| - 1 ==> !Contains(row[f] + sep[..|sep| - 1], sep)
  {
    var text := line[..|line| - 1];
    SplitLeftmost(text, sep);
    Split(text, sep)
  }

  /** The rows handed to `add_patterns` (term_proxy.py:132-133), one per selected line. */
  function Rows(lines: seq<string>, sep: string): (rows: seq<seq<string>>)
    requires |sep| > 0
    ensures |rows| <= |lines|
  {
    var picked := Selected(lines, sep);
    seq(|picked|, k requires 0 <= k < |picked| => RowOf(picked[k], sep))
  }

  /** The rows of two stretches of a file are the rows of the first followed by the
      rows of the second: a line's row depends on that line alone. */
  lemma RowsAppend(a: seq<string>, b: seq<string>, sep: string)
    requires |sep| > 0
    ensures Rows(a + b, sep) == Rows(a, sep) + Rows(b, sep)
  {
    SelectedAppend(a, b, sep);
    var whole, left, right := Rows(a + b, sep), Rows(a, sep), Rows(b, sep);
    var pa := Selected(a, sep);
    forall k | 0 <= k < |whole| ensures whole[k] == (left + right)[k] {
      if k < |pa| {
        assert (pa + Selected(b, sep))[k] == pa[k];
      } else {
        assert (pa + Selected(b, sep))[k] == Selected(b, sep)[k - |pa|];
      }
    }
  }

  // ---------------------------------------------------------------------------
  // add_patterns

  /** Why loading raises instead of returning a `Patterns` object. */
  datatype LoadError =
    | WrongFieldCount(count: nat)  // `for pat, act, trans in patterns` unpacks a row of another length
    | UnknownAction(name: string)  // `self.actions[act]` raises KeyError, which the handler does not catch
    | MasterRejected               // `re.compile` refuses the combined pattern

  /** The rules stored so far and the error that stopped loading, if any. */
  datatype Loaded = Loaded(rules: seq<Rule>, failure: Option<LoadError>)

  /** Loading `first` and then `second`, stopping at the first error. */
  function Then(first: Loaded, second: Loaded): Loaded {
    if first.failure.Some? then first else Loaded(first.rules + second.rules, second.failure)
  }

  /** A row that `add_patterns` gets past without raising. */
  predicate RowLoads(engine: Engine, row: seq<string>) {
    |row| == 3 && (engine.compiles(row[0]) ==> row[1] in Actions)
  }

  /** `add_patterns` (term_proxy.py:139-148): a row must have three fields; a row
      whose pattern does not compile is skipped; a compiling row must name one of the
      five actions; every other row is stored, in order. The `except re.error,
      KeyError` clause binds the regex error to the name `KeyError`, so an unknown
      action name is not caught. */
  function Admit(engine: Engine, rows: seq<seq<string>>): (r: Loaded)
    ensures |r.rules| <= |rows|
    ensures forall k :: 0 <= k < |r.rules| ==> engine.compiles(r.rules[k].pattern)
    ensures r.failure.None? <==> forall k :: 0 <= k < |rows| ==> RowLoads(engine, rows[k])
    decreases |rows|
  {
    if |rows| == 0 then Loaded([], None)
    else
      var row := rows[0];
      assert forall k :: 1 <= k < |rows| ==> rows[1..][k - 1] == rows[k];
      if |row| != 3 then Loaded([], Some(WrongFieldCount(|row|)))
      else if !engine.compiles(row[0]) then Admit(engine, rows[1..])
      else if row[1] !in Actions then Loaded([], Some(UnknownAction(row[1])))
      else
        var rest := Admit(engine, rows[1..]);
        Loaded([Rule(row[0], Actions[row[1]], row[2])] + rest.rules, rest.failure)
  }

  /** What one row contributes to `add_patterns`: the error it raises, nothing when
      its pattern does not compile, or its rule. */
  function RowOutcome(engine: Engine, row: seq<string>): Loaded {
    if |row| != 3 then Loaded([], Some(WrongFieldCount(|row|)))
    else if !engine.compiles(row[0]) then Loaded([], None)
    else if row[1] !in Actions then Loaded([], Some(UnknownAction(row[1])))
    else Loaded([Rule(row[0], Actions[row[1]], row[2])], None)
  }

  /** `Admit` on a non-empty list: the first row, then the others. */
  lemma AdmitFirst(engine: Engine, rows: seq<seq<string>>)
    requires |rows| > 0
    ensures Admit(engine, rows) == Then(RowOutcome(engine, rows[0]), Admit(engine, rows[1..]))
  {
    var rest := Admit(engine, rows[1..]);
    assert [] + rest.rules == rest.rules;
  }

  /** The outcomes of the rows, one per row, each taken on its own. */
  function RowOutcomes(engine: Engine, rows: seq<seq<string>>): (outcomes: seq<Loaded>)
    ensures |outcomes| == |rows|
  {
    Each(row => RowOutcome(engine, row), rows)
  }

  /** `add_patterns` is its rows' outcomes taken one after the other. */
  lemma {:induction false} AdmitChain(engine: Engine, rows: seq<seq<string>>)
    ensures Admit(engine, rows) == Chain(RowOutcomes(engine, rows))
    decreases |rows|
  {
    if |rows| > 0 {
      AdmitFirst(engine, rows);
      AdmitChain(engine, rows[1..]);
      EachTail(row => RowOutcome(engine, row), rows);
    }
  }

  /** Removing a row whose pattern does not compile changes nothing. */
  lemma {:induction false} AdmitSkipsUncompilable(engine: Engine, rows: seq<seq<string>>, k: nat)
    requires k < |rows| && |rows[k]| == 3 && !engine.compiles(rows[k][0])
    ensures Admit(engine, rows[..k] + rows[k + 1..]) == Admit(engine, rows)
    decreases k
  {
    var dropped := rows[..k] + rows[k + 1..];
    if k == 0 {
      assert dropped == rows[1..];
    } else {
      AdmitSkipsUncompilable(engine, rows[1..], k - 1);
      assert dropped[0] == rows[0];
      assert dropped[1..] == rows[1..][..k - 1] + rows[1..][k..];
    }
  }

  /** Rows are loaded in order: loading `a + b` is loading `a`, then `b`. */
  lemma AdmitAppend(engine: Engine, a: seq<seq<string>>, b: seq<seq<string>>)
    ensures Admit(engine, a + b) == Then(Admit(engine, a), Admit(engine, b))
  {
    AdmitChain(engine, a + b);
    AdmitChain(engine, a);
    AdmitChain(engine, b);
    EachAppend(row => RowOutcome(engine, row), a, b);
    ChainAppend(RowOutcomes(engine, a), RowOutcomes(engine, b));
  }

  /** When every row is a valid rule, every row is stored, in order. */
  lemma {:induction false} AdmitAllValid(engine: Engine, rows: seq<seq<string>>)
    requires forall k :: 0 <= k < |rows| ==>
      |rows[k]| == 3 && engine.compiles(rows[k][0]) && rows[k][1] in Actions
    ensures Admit(engine, rows).failure == None
    ensures |Admit(engine, rows).rules| == |rows|
    ensures forall k :: 0 <= k < |rows| ==>
      Admit(engine, rows).rules[k] == Rule(rows[k][0], Actions[rows[k][1]], rows[k][2])
    decreases |rows|
  {
    if |rows| > 0 {
      AdmitAllValid(engine, rows[1..]);
      var rest := Admit(engine, rows[1..]);
      assert Admit(engine, rows).rules == [Rule(rows[0][0], Actions[rows[0][1]], rows[0][2])] + rest.rules;
      forall k | 1 <= k < |rows|
        ensures Admit(engine, rows).rules[k] == Rule(rows[k][0], Actions[rows[k][1]], rows[k][2])
      {
        assert rows[1..][k - 1] == rows[k];
      }
    }
  }

  // ---------------------------------------------------------------------------
  // Patterns.__init__: all files

  /** One rules file: no rules unless its first line is a header. `readline` on an
      empty file gives the empty string, which is not a header. */
  function LoadFile(engine: Engine, text: string): Loaded {
    var lines := FileLines(text);
    if |lines| == 0 then Loaded([], None)
    else
      match HeaderSeparator(lines[0])
      case None => Loaded([], None)
      case Some(sep) => Admit(engine, Rows(lines[1..], sep))
  }

  predicate AllCompile(engine: Engine, rules: seq<Rule>) {
    forall k :: 0 <= k < |rules| ==> engine.compiles(rules[k].pattern)
  }

  /** A file contributes rules, or an error, only when its first line is a header;
      it then contributes at most one rule per later line, and every stored pattern
      compiles. */
  lemma LoadFileShape(engine: Engine, text: string)
    ensures AllCompile(engine, LoadFile(engine, text).rules)
    ensures var lines, r := FileLines(text), LoadFile(engine, text);
      r.rules != [] || r.failure.Some? ==>
        |lines| > 0 && HeaderSeparator(lines[0]).Some? && |r.rules| < |lines|
  {
    var lines := FileLines(text);
    if |lines| > 0 && HeaderSeparator(lines[0]).Some? {
      var rows := Rows(lines[1..], HeaderSeparator(lines[0]).value);
      assert |Admit(engine, rows).rules| <= |rows| <= |lines| - 1;
    }
  }

  /** The outcomes of the files, one per file, each loaded on its own. */
  function FileLoads(engine: Engine, files: seq<string>): (loads: seq<Loaded>)
    ensures |loads| == |files|
  {
    Each(text => LoadFile(engine, text), files)
  }

  /** `load` applied to each item, in order. */
  function Each<T>(load: T -> Loaded, items: seq<T>): (outcomes: seq<Loaded>)
    ensures |outcomes| == |items|
    ensures forall k :: 0 <= k < |items| ==> outcomes[k] == load(items[k])
  {
    seq(|items|, k requires 0 <= k < |items| => load(items[k]))
  }

  lemma EachAppend<T>(load: T -> Loaded, a: seq<T>, b: seq<T>)
    ensures Each(load, a + b) == Each(load, a) + Each(load, b)
  {
    var whole, left, right := Each(load, a + b), Each(load, a), Each(load, b);
    forall k | 0 <= k < |whole|
      ensures whole[k] == (left + right)[k]
    {
      if k < |a| {
        assert (a + b)[k] == a[k];
      } else {
        assert (a + b)[k] == b[k - |a|];
      }
    }
  }

  lemma EachTail<T>(load: T -> Loaded, items: seq<T>)
    requires |items| > 0
    ensures Each(load, items)[1..] == Each(load, items[1..])
  {
  }

  lemma EachPrefix<T>(load: T -> Loaded, items: seq<T>, k: nat)
    requires k <= |items|
    ensures Each(load, items)[..k] == Each(load, items[..k])
  {
  }

  /** Outcomes taken one after the other, stopping at the first error. */
  function Chain(loads: seq<Loaded>): Loaded
    decreases |loads|
  {
    if |loads| == 0 then Loaded([], None) else Then(loads[0], Chain(loads[1..]))
  }

  /** All rules files, in order, stopping at the first error. */
  function LoadAll(engine: Engine, files: seq<string>): Loaded {
    Chain(FileLoads(engine, files))
  }

  /** Every pattern stored while loading all the files compiles. */
  lemma LoadAllCompiles(engine: Engine, files: seq<string>)
    ensures AllCompile(engine, LoadAll(engine, files).rules)
  {
    var loads := FileLoads(engine, files);
    forall i | 0 <= i < |loads| ensures AllCompile(engine, loads[i].rules) {
      LoadFileShape(engine, files[i]);
    }
    ChainCompiles(engine, loads);
  }

  lemma {:induction false} ChainCompiles(engine: Engine, loads: seq<Loaded>)
    requires forall i :: 0 <= i < |loads| ==> AllCompile(engine, loads[i].rules)
    ensures AllCompile(engine, Chain(loads).rules)
    decreases |loads|
  {
    if |loads| > 0 {
      ChainCompiles(engine, loads[1..]);
    }
  }

  lemma ThenAssociative(x: Loaded, y: Loaded, z: Loaded)
    ensures Then(Then(x, y), z) == Then(x, Then(y, z))
  {
    if x.failure.None? && y.failure.None? {
      assert x.rules + y.rules + z.rules == x.rules + (y.rules + z.rules);
    }
  }

  lemma {:induction false} ChainAppend(a: seq<Loaded>, b: seq<Loaded>)
    ensures Chain(a + b) == Then(Chain(a), Chain(b))
    decreases |a|
  {
    if |a| == 0 {
      assert a + b == b;
      assert Chain(b).rules == [] + Chain(b).rules;
    } else {
      assert (a + b)[0] == a[0] && (a + b)[1..] == a[1..] + b;
      ChainAppend(a[1..], b);
      ThenAssociative(a[0], Chain(a[1..]), Chain(b));
    }
  }

  lemma FileLoadsAppend(engine: Engine, a: seq<string>, b: seq<string>)
    ensures FileLoads(engine, a + b) == FileLoads(engine, a) + FileLoads(engine, b)
  {
    EachAppend(text => LoadFile(engine, text), a, b);
  }

  /** Files are loaded one after the other. */
  lemma LoadAllAppend(engine: Engine, a: seq<string>, b: seq<string>)
    ensures LoadAll(engine, a + b) == Then(LoadAll(engine, a), LoadAll(engine, b))
  {
    FileLoadsAppend(engine, a, b);
    ChainAppend(FileLoads(engine, a), FileLoads(engine, b));
  }

  /** Loading stops at the first file that raises, or after the last file. */
  lemma LoadAllStops(engine: Engine, files: seq<string>, k: nat)
    requires k <= |files|
    requires k == |files| || LoadAll(engine, files[..k]).failure.Some?
    ensures LoadAll(engine, files) == LoadAll(engine, files[..k])
  {
    if k < |files| {
      EachPrefix(text => LoadFile(engine, text), files, k);
      ChainStops(FileLoads(engine, files), k);
    } else {
      assert files[..k] == files;
    }
  }

  /** All files, when loading stopped after the first `k`. */
  lemma LoadAllUpTo(engine: Engine, files: seq<string>, k: nat)
    requires k <= |files|
    requires k == |files| || Chain(FileLoads(engine, files)[..k]).failure.Some?
    ensures LoadAll(engine, files) == Chain(FileLoads(engine, files)[..k])
  {
    ChainStops(FileLoads(engine, files), k);
  }

  /** The chain stops at the first error, or after the last outcome. */
  lemma ChainStops(loads: seq<Loaded>, k: nat)
    requires k <= |loads|
    requires k == |loads| || Chain(loads[..k]).failure.Some?
    ensures Chain(loads) == Chain(loads[..k])
  {
    assert loads[..k] + loads[k..] == loads;
    ChainAppend(loads[..k], loads[k..]);
  }

  /** One more outcome after a chain without error. */
  lemma ChainSnoc(loads: seq<Loaded>, k: nat)
    requires k < |loads| && Chain(loads[..k]).failure.None?
    ensures Chain(loads[..k + 1]).rules == Chain(loads[..k]).rules + loads[k].rules
    ensures Chain(loads[..k + 1]).failure == loads[k].failure
  {
    assert loads[..k + 1] == loads[..k] + [loads[k]];
    ChainAppend(loads[..k], [loads[k]]);
    assert Chain([loads[k]]) == Then(loads[k], Chain([loads[k]][1..]));
    assert [loads[k]][1..] == [];
    if loads[k].failure.None? {
      assert loads[k].rules + [] == loads[k].rules;
    }
  }

  /** A file without a header contributes nothing, and loading carries on with the next. */
  lemma LoadSkipsHeaderless(engine: Engine, a: seq<string>, text: string, b: seq<string>)
    requires |FileLines(text)| == 0 || HeaderSeparator(FileLines(text)[0]).None?
    ensures LoadAll(engine, a + [text] + b) == LoadAll(engine, a + b)
  {
    FileLoadsAppend(engine, a + [text], b);
    FileLoadsAppend(engine, a, [text]);
    FileLoadsAppend(engine, a, b);
    var single := FileLoads(engine, [text]);
    assert single == [Loaded([], None)];
    ChainSkipsNothing(FileLoads(engine, a), FileLoads(engine, b));
  }

  /** An outcome with no rules and no error leaves the chain unchanged. */
  lemma ChainSkipsNothing(x: seq<Loaded>, y: seq<Loaded>)
    ensures Chain(x + [Loaded([], None)] + y) == Chain(x + y)
  {
    var nothing := Loaded([], None);
    assert x + [nothing] + y == x + ([nothing] + y);
    ChainAppend(x, [nothing] + y);
    ChainAppend([nothing], y);
    ChainAppend(x, y);
    assert Chain([nothing]) == Then(nothing, Chain([nothing][1..]));
    assert [nothing][1..] == [];
    assert Chain(y).rules == [] + Chain(y).rules;
  }

  // ---------------------------------------------------------------------------
  // The combined pattern

  const GroupPrefix := "tpp"

  /** The group name of the rule at index `i`: `'%s%d' % (gprefix, i)`. */
  function GroupName(i: nat): string {
    GroupPrefix + DecimalString(i)
  }

  /** The index `matches` recovers from a group name: `int(key[len(gprefix):])`
      for a name that starts with the prefix. */
  function DecodeIndex(key: string): (r: Option<nat>)
    ensures r.Some? <==> IsPrefix(GroupPrefix, key) && |key| > |GroupPrefix| && AllDigits(key[|GroupPrefix|..])
  {
    if IsPrefix(GroupPrefix, key) then ParseDecimal(key[|GroupPrefix|..]) else None
  }

  /** Stripping the prefix and parsing the number gives back the index. */
  lemma GroupNameRoundTrip(i: nat)
    ensures DecodeIndex(GroupName(i)) == Some(i)
  {
    var name := GroupName(i);
    assert name[..|GroupPrefix|] == GroupPrefix;
    assert name[|GroupPrefix|..] == DecimalString(i);
    DecimalRoundTrip(i);
  }

  /** Different rules get different group names. */
  lemma GroupNamesDistinct(i: nat, j: nat)
    requires i != j
    ensures GroupName(i) != GroupName(j)
  {
    GroupNameRoundTrip(i);
    GroupNameRoundTrip(j);
  }

  /** The alternative for rule `i`: `'(?P<%s%d>%s)' % (gprefix, i, pat)`. */
  function Alternative(i: nat, code: string): string {
    "(?P<" + GroupName(i) + ">" + code + ")"
  }

  /** The pattern `Patterns.__init__` compiles as `self.master` (term_proxy.py:134-137). */
  function MasterSource(codes: seq<string>): string {
    Join(seq(|codes|, i requires 0 <= i < |codes| => Alternative(i, codes[i])), "|")
  }

  /** The loop of `Patterns.__init__` that builds `merge`, joined with `|`
      (term_proxy.py:134-137). */
  method MasterOf(codes: seq<string>) returns (master: string)
    ensures master == MasterSource(codes)
  {
    var merge: seq<string> := [];
    for i := 0 to |codes|
      invariant |merge| == i
      invariant forall j :: 0 <= j < i ==> merge[j] == Alternative(j, codes[j])
    {
      merge := merge + [Alternative(i, codes[i])];
    }
    assert merge == seq(|codes|, i requires 0 <= i < |codes| => Alternative(i, codes[i]));
    master := Join(merge, "|");
  }

  /** The name of a named group, as the regex parser reads it from `(?P<name>...)`:
      everything up to the first `>`. */
  function GroupNameIn(alt: string): Option<string> {
    if IsPrefix("(?P<", alt) then
      match Find(alt[4..], ">")
      case Some(j) => Some(alt[4..][..j])
      case None => None
    else None
  }

  /** The group name written into rule `i`'s alternative is read back as `GroupName(i)`,
      and decoding it gives `i`, whatever the rule's own pattern text. */
  lemma AlternativeRoundTrip(i: nat, code: string)
    ensures GroupNameIn(Alternative(i, code)) == Some(GroupName(i))
    ensures DecodeIndex(GroupName(i)) == Some(i)
  {
    GroupNameRoundTrip(i);
    var name, rest := GroupName(i), ">" + code + ")";
    var alt := Alternative(i, code);
    assert alt == "(?P<" + (name + rest);
    assert IsPrefix("(?P<", alt) && alt[4..] == name + rest;
    NoCloseInGroupName(i);
    FindAfterName(name, rest);
    assert (name + rest)[..|name|] == name;
  }

  lemma NoCloseInGroupName(i: nat)
    ensures forall j :: 0 <= j < |GroupName(i)| ==> GroupName(i)[j] != '>'
  {
    var name := GroupName(i);
    forall j | 0 <= j < |name| ensures name[j] != '>' {
      if j >= 3 {
        assert name[j] == DecimalString(i)[j - 3];
      }
    }
  }

  /** In a name without `>` followed by `>`, the first `>` is the one after the name. */
  lemma FindAfterName(name: string, rest: string)
    requires forall j :: 0 <= j < |name| ==> name[j] != '>'
    requires |rest| > 0 && rest[0] == '>'
    ensures Find(name + rest, ">") == Some(|name|)
  {
    var body := name + rest;
    forall j | 0 <= j < |name| ensures !OccursAt(body, ">", j) {
      NoCloseAt(name, rest, j);
    }
    assert body[|name|] == rest[0];
    assert body[|name|..|name| + 1] == [body[|name|]];
    assert OccursAt(body, ">", |name|);
    assert Contains(body, ">");
    var j := Find(body, ">").value;
    assert !(j < |name|) && !(|name| < j);
  }

  lemma NoCloseAt(name: string, rest: string, j: nat)
    requires j < |name| && name[j] != '>'
    ensures !OccursAt(name + rest, ">", j)
  {
    assert (name + rest)[j..j + 1] == [name[j]];
  }

  // ---------------------------------------------------------------------------
  // Patterns.matches

  /** One `(action, text)` pair that `matches` yields. */
  datatype Fired = Fired(action: Action, text: string)

  /** Why `matches` raises part-way. */
  datatype MatchFailure =
    | NoOwnMatch(index: nat)                      // `pat.match(string)` is None, and `.groups()` fails on it
    | BadTemplate(index: nat, error: FormatError) // `trans.format(...)` raises

  /** What `matches` yields for a line, and the error it then raises, if any. */
  datatype Yields = Yields(items: seq<Fired>, failure: Option<MatchFailure>)

  /** The order in which `groupdict()` lists the group names of `n` rules: each index
      below `n` once, in an order the dictionary decides. */
  predicate IsVisitOrder(order: seq<nat>, n: nat) {
    && |order| == n
    && (forall k :: 0 <= k < n ==> order[k] < n)
    && (forall i :: 0 <= i < n ==> i in order)
  }

  /** Rule `index` applied to `line` on its own: its action and its translation
      formatted with the groups of its own match (term_proxy.py:156-158). */
  function Fire(engine: Engine, rule: Rule, index: nat, line: string): (r: Result<Fired, MatchFailure>)
    ensures r == Err(NoOwnMatch(index)) <==> engine.matchAt(rule.pattern, line).None?
    ensures r.Err? ==> r.error.index == index
    ensures r.Ok? ==>
      && r.value.action == rule.action
      && engine.matchAt(rule.pattern, line).Some?
      && Render(rule.trans, engine.matchAt(rule.pattern, line).value) == Ok(r.value.text)
    ensures r.Ok? <==>
      engine.matchAt(rule.pattern, line).Some? && Render(rule.trans, engine.matchAt(rule.pattern, line).value).Ok?
    ensures r.Err? && r.error.BadTemplate? ==>
      && engine.matchAt(rule.pattern, line).Some?
      && Render(rule.trans, engine.matchAt(rule.pattern, line).value) == Err(r.error.error)
  {
    match engine.matchAt(rule.pattern, line)
    case None => Err(NoOwnMatch(index))
    case Some(groups) =>
      match Render(rule.trans, groups)
      case Ok(text) => Ok(Fired(rule.action, text))
      case Err(e) => Err(BadTemplate(index, e))
  }

  /** The loop over the group names of the combined match (term_proxy.py:153-158):
      every key is decoded to a rule index and that rule fires; the first rule that
      cannot fire ends the loop with its error. */
  function Visit(engine: Engine, rules: seq<Rule>, line: string, order: seq<nat>): (y: Yields)
    requires forall k :: 0 <= k < |order| ==> order[k] < |rules|
    ensures |y.items| <= |order|
    ensures forall k :: 0 <= k < |y.items| ==>
      Fire(engine, rules[order[k]], order[k], line) == Ok(y.items[k])
    ensures y.failure.None? ==> |y.items| == |order|
    ensures y.failure.Some? ==> (|y.items| < |order| &&
      Fire(engine, rules[order[|y.items|]], order[|y.items|], line) == Err(y.failure.value))
    decreases |order|
  {
    if |order| == 0 then Yields([], None)
    else
      GroupNameRoundTrip(order[0]);
      var index := DecodeIndex(GroupName(order[0])).value;
      match Fire(engine, rules[index], index, line)
      case Err(e) => Yields([], Some(e))
      case Ok(f) =>
        var rest := Visit(engine, rules, line, order[1..]);
        VisitCons(engine, rules, line, order, f, rest);
        Yields([f] + rest.items, rest.failure)
  }

  /** The first key fired `f`, and the other keys gave `rest`. */
  lemma VisitCons(engine: Engine, rules: seq<Rule>, line: string, order: seq<nat>, f: Fired, rest: Yields)
    requires |order| > 0 && forall k :: 0 <= k < |order| ==> order[k] < |rules|
    requires Fire(engine, rules[order[0]], order[0], line) == Ok(f)
    requires |rest.items| <= |order| - 1
    requires forall k :: 0 <= k < |rest.items| ==>
      Fire(engine, rules[order[1..][k]], order[1..][k], line) == Ok(rest.items[k])
    requires rest.failure.None? ==> |rest.items| == |order| - 1
    requires rest.failure.Some? ==> (|rest.items| < |order| - 1 &&
      Fire(engine, rules[order[1..][|rest.items|]], order[1..][|rest.items|], line) == Err(rest.failure.value))
    ensures forall k :: 0 <= k < |[f] + rest.items| ==>
      Fire(engine, rules[order[k]], order[k], line) == Ok(([f] + rest.items)[k])
    ensures rest.failure.Some? ==>
      Fire(engine, rules[order[1 + |rest.items|]], order[1 + |rest.items|], line) == Err(rest.failure.value)
  {
    var items := [f] + rest.items;
    forall k | 1 <= k < |items|
      ensures Fire(engine, rules[order[k]], order[k], line) == Ok(items[k])
    {
      assert items[k] == rest.items[k - 1] && order[k] == order[1..][k - 1];
    }
    if rest.failure.Some? {
      assert order[1 + |rest.items|] == order[1..][|rest.items|];
    }
  }

  /** `Patterns.matches(line)` over the stored rules and the compiled combined pattern.
      Nothing is yielded when the combined pattern does not match at the start of the
      line. When it does, every rule is visited, not just the one whose group took
      part: the loop ends without error exactly when every rule's own pattern matches
      and every translation renders, and each yielded pair comes from the rule whose
      key was visited at that point, formatted with that rule's own groups. */
  function MatchLine(engine: Engine, master: string, rules: seq<Rule>, line: string, order: seq<nat>): (y: Yields)
    requires IsVisitOrder(order, |rules|)
    ensures engine.matchAt(master, line).None? ==> y == Yields([], None)
    ensures |y.items| <= |rules|
    ensures engine.matchAt(master, line).Some? ==>
      (y.failure.None? <==> forall i :: 0 <= i < |rules| ==> Fire(engine, rules[i], i, line).Ok?)
    ensures forall k :: 0 <= k < |y.items| ==>
      Fire(engine, rules[order[k]], order[k], line) == Ok(y.items[k])
    ensures engine.matchAt(master, line).Some? && y.failure.None? ==> |y.items| == |rules|
    ensures engine.matchAt(master, line).Some? && y.failure.Some? ==>
      |y.items| < |rules| && Fire(engine, rules[order[|y.items|]], order[|y.items|], line) == Err(y.failure.value)
  {
    if engine.matchAt(master, line).None? then Yields([], None)
    else
      var y := Visit(engine, rules, line, order);
      assert y.failure.None? ==> forall i :: 0 <= i < |rules| ==> Fire(engine, rules[i], i, line).Ok? by {
        if y.failure.None? {
          forall i | 0 <= i < |rules| ensures Fire(engine, rules[i], i, line).Ok? {
            assert i in order;
            var k :| 0 <= k < |order| && order[k] == i;
          }
        }
      }
      y
  }

  // ---------------------------------------------------------------------------
  // The Patterns object

  /** The pattern texts of a list of rules. */
  function Codes(rules: seq<Rule>): (codes: seq<string>)
    ensures |codes| == |rules| && forall i :: 0 <= i < |rules| ==> codes[i] == rules[i].pattern
  {
    seq(|rules|, i requires 0 <= i < |rules| => rules[i].pattern)
  }

  lemma CodesSnoc(rules: seq<Rule>, rule: Rule)
    ensures Codes(rules + [rule]) == Codes(rules) + [rule.pattern]
  {
    var whole, left := Codes(rules + [rule]), Codes(rules);
    forall i | 0 <= i < |whole|
      ensures whole[i] == (left + [rule.pattern])[i]
    {
      if i < |rules| {
        assert (rules + [rule])[i] == rules[i];
      }
    }
  }

  class Patterns {
    var codes: seq<string>
    var rules: seq<Rule>
    var master: string
    /** The exception `Patterns(files)` raises, if any; when it is set the object
        stands for no object at all. */
    var failure: Option<LoadError>

    /** `codes` and `patterns` are parallel lists: `codes[i]` is the text of rule `i`'s pattern. */
    ghost predicate Valid()
      reads this
    {
      codes == Codes(rules)
    }

    /** `Patterns.__init__` (term_proxy.py:121-137). */
    constructor (engine: Engine, files: seq<string>)
      ensures Valid()
      ensures rules == LoadAll(engine, files).rules
      ensures LoadAll(engine, files).failure.Some? ==> failure == LoadAll(engine, files).failure
      ensures LoadAll(engine, files).failure.None? ==>
        && master == MasterSource(codes)
        && failure == (if engine.compiles(master) then None else Some(MasterRejected))
    {
      codes, rules, master, failure := [], [], "", None;
      new;
      LoadFiles(engine, files);
      if failure.None? {
        Compile(engine);
      }
    }

    /** The loop over the rules files in `Patterns.__init__` (term_proxy.py:124-133),
        which ends at the first file that raises. */
    method LoadFiles(engine: Engine, files: seq<string>)
      requires Valid() && rules == [] && failure.None?
      modifies this
      ensures Valid() && master == old(master)
      ensures rules == LoadAll(engine, files).rules && failure == LoadAll(engine, files).failure
    {
      ghost var loads := FileLoads(engine, files);
      var k := 0;
      while k < |files| && failure.None?
        invariant 0 <= k <= |files|
        invariant Valid() && master == old(master)
        invariant rules == Chain(loads[..k]).rules
        invariant failure == Chain(loads[..k]).failure
      {
        LoadNext(engine, files, k, loads);
        k := k + 1;
      }
      LoadAllUpTo(engine, files, k);
    }

    /** One pass of that loop: file `k`, after the first `k` loaded without error. */
    method LoadNext(engine: Engine, files: seq<string>, k: nat, ghost loads: seq<Loaded>)
      requires Valid() && k < |files| && loads == FileLoads(engine, files)
      requires rules == Chain(loads[..k]).rules && failure == Chain(loads[..k]).failure
      requires failure.None?
      modifies this
      ensures Valid() && master == old(master)
      ensures rules == Chain(loads[..k + 1]).rules && failure == Chain(loads[..k + 1]).failure
    {
      ChainSnoc(loads, k);
      failure := LoadFileInto(engine, files[k], loads[k]);
    }

    /** The end of `Patterns.__init__` (term_proxy.py:134-137): the alternation of all
        patterns, which the engine must accept. */
    method Compile(engine: Engine)
      requires Valid()
      modifies this
      ensures Valid() && codes == old(codes) && rules == old(rules)
      ensures master == MasterSource(codes)
      ensures failure == if engine.compiles(master) then None else Some(MasterRejected)
    {
      master := MasterOf(codes);
      failure := if engine.compiles(master) then None else Some(MasterRejected);
    }

    /** The body of the loop over files in `Patterns.__init__` (term_proxy.py:125-133):
        read the header, and when it names a separator, add the file's rows. `outcome`
        is the specification of the file, `LoadFile(engine, text)`, named by the caller. */
    method LoadFileInto(engine: Engine, text: string, ghost outcome: Loaded) returns (raised: Option<LoadError>)
      requires Valid() && outcome == LoadFile(engine, text)
      modifies this
      ensures Valid()
      ensures rules == old(rules) + outcome.rules
      ensures raised == outcome.failure
      ensures master == old(master) && failure == old(failure)
    {
      raised := None;
      var lines := FileLines(text);
      if |lines| > 0 {
        match HeaderSeparator(lines[0]) {
          case None =>
          case Some(sep) =>
            raised := AddPatterns(engine, Rows(lines[1..], sep));
        }
      }
    }

    /** `Patterns.add_patterns` (term_proxy.py:139-148): appends the admitted rules
        to both parallel lists and reports the exception that stopped it, if any. */
    method AddPatterns(engine: Engine, rows: seq<seq<string>>) returns (raised: Option<LoadError>)
      requires Valid()
      modifies this
      ensures Valid()
      ensures rules == old(rules) + Admit(engine, rows).rules
      ensures raised == Admit(engine, rows).failure
      ensures master == old(master) && failure == old(failure)
    {
      raised := AddRows(engine, rows);
      AdmitChain(engine, rows);
    }

    /** The loop of `add_patterns` over the rows (term_proxy.py:140-148), which ends
        at the first row that raises. */
    method AddRows(engine: Engine, rows: seq<seq<string>>) returns (raised: Option<LoadError>)
      requires Valid()
      modifies this
      ensures Valid()
      ensures rules == old(rules) + Chain(RowOutcomes(engine, rows)).rules
      ensures raised == Chain(RowOutcomes(engine, rows)).failure
      ensures master == old(master) && failure == old(failure)
    {
      ghost var outcomes := RowOutcomes(engine, rows);
      raised := None;
      var k := 0;
      while k < |rows| && raised.None?
        invariant 0 <= k <= |rows|
        invariant Valid() && master == old(master) && failure == old(failure)
        invariant rules == old(rules) + Chain(outcomes[..k]).rules
        invariant raised == Chain(outcomes[..k]).failure
      {
        ChainSnoc(outcomes, k);
        raised := AddRow(engine, rows[k]);
        k := k + 1;
      }
      ChainStops(outcomes, k);
    }

    /** One pass of the loop in `add_patterns` (term_proxy.py:141-148). */
    method AddRow(engine: Engine, row: seq<string>) returns (raised: Option<LoadError>)
      requires Valid()
      modifies this
      ensures Valid()
      ensures rules == old(rules) + RowOutcome(engine, row).rules
      ensures raised == RowOutcome(engine, row).failure
      ensures master == old(master) && failure == old(failure)
    {
      raised := None;
      if |row| != 3 {
        raised := Some(WrongFieldCount(|row|));
      } else if engine.compiles(row[0]) {
        if row[1] in Actions {
          var rule := Rule(row[0], Actions[row[1]], row[2]);
          CodesSnoc(rules, rule);
          codes := codes + [row[0]];
          rules := rules + [rule];
        } else {
          raised := Some(UnknownAction(row[1]));
        }
      }
    }
  }
}
