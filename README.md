# term_proxy in Dafny

`term_proxy.py` runs a child terminal program between the operator and the
child. Lines the operator types go to the child's standard input. Each
complete line the child prints is checked against rules from one or more rules
files. A rule can answer the child (`respond`), print something instead of the
line (`replace`), print something as well as the line (`print`), hide the line
(`filter`) or call a user function (`function`).

This project models the string-level core of that program and proves
properties of the model:

- `wrappers.dfy`, module `Wrappers`: `Option` and `Result`.
- `text.dfy`, module `Text`: the Python string operations the core relies on.
  These are `sep in s` (`Contains`), `str.split` with a non-empty separator
  (`Split`), `str.join`, `'%d' % n` and `int(s)` on digit strings. `Find`, the
  leftmost occurrence of a separator, is the helper behind `Split` and behind
  cutting a file into lines (`Rules.FileLines`).
- `format.dfy`, module `Format`: `str.format(*groups)` for the subset used by
  rule translations. That subset is literal text, `{{`, `}}` and `{N}` with a
  decimal `N`.
- `channel.dfy`, module `Channel`: class `Forign`.
  - `sendline` writes a line and one newline.
  - The output buffer of `Forign.__iter__` is the class `ChildChannel`, with an
    `outbuf` field and a `Feed` method.
  - The event loop is `ChildChannel.Events`. It runs over a sequence of
    observations, each either a typed line or a chunk of child output.
- `rules.dfy`, module `Rules`: class `Patterns`.
  - The header regex `flpat`, as a string predicate.
  - Reading a rules file line by line, selecting and splitting rows.
  - `add_patterns` and the parallel `codes`/`patterns` lists.
  - The combined `tpp<i>` pattern and decoding the rule index from a group name.
  - `matches`.
- `proxy.dfy`, module `Proxy`: the loop of `proxy()`. Each event becomes a list
  of effects: `Send` to the child, `Show` to the user, `Call` of a user
  function, or `Crash` when `matches` raises. A `print_` flag decides whether
  the raw line is shown.

Regular expressions are abstract. An `Engine` value gives `compiles(pattern)`
and `matchAt(pattern, line)`. The latter is the result of an anchored
`re.match`: `None`, or the captured groups in order, with `None` for a group
that took no part. The order in which `groupdict()` lists its keys is also a
parameter, `order`. It is any listing of each rule index once.

Where the help text and the code disagree, the model follows the code:

- When the combined pattern matches a line, `matches` visits every `tpp<i>` key
  of `groupdict()`, not only the group that matched. Every rule then fires on
  its own match of the line. The first rule whose own pattern does not match
  makes `match.groups()` raise (`NoOwnMatch`). A translation that
  `str.format` rejects raises too (`BadTemplate`). Either exception ends the
  proxy after the pairs already yielded have been acted on.
- `except re.error, KeyError:` is Python 2 syntax for catching `re.error` under
  the name `KeyError`. So a known-good pattern with an unknown action name
  raises out of the constructor (`UnknownAction`). Only a pattern that does not
  compile is skipped.
- A selected line that does not split into exactly three fields raises
  `ValueError` when unpacked (`WrongFieldCount`).
- `format(*groups)` counts fields from 0. The help example's `{1}` with one
  group raises `IndexError` (`Format.HelpExampleIndexing`).
- `line[:-1]` always drops the last character, even on a final line with no
  newline.

## Model

| member | source | states |
|---|---|---|
| Text.Split | term_proxy.py:91 | `str.split` on a non-empty separator gives at least one piece; joining the pieces with the separator gives the input back, and no piece contains the separator |
| Text.SplitLeftmost | term_proxy.py:132 | every cut of `str.split` is at the leftmost occurrence after the previous cut: no occurrence of the separator starts inside a piece, not even one running on into the separator after it |
| Text.SplitUnique | term_proxy.py:132 | any pieces that join back to the text, contain no separator and are cut at leftmost occurrences are exactly what `str.split` returns |
| Text.SplitOverlapping | term_proxy.py:132 | with the self-overlapping separator `==`, the row text `a==respond===x` splits into `a`, `respond` and `=x` |
| Text.Find | term_proxy.py:91 | the leftmost occurrence of the separator, with no occurrence before it, or `None` exactly when the text does not contain it; `str.split` (lines 91 and 132) and line reading cut at this position |
| Text.DecimalRoundTrip | term_proxy.py:136 | parsing the decimal text of an index (`int` of `'%d' % i`) gives the index back |
| Channel.FeedSpec | term_proxy.py:89-96 | the lines each followed by a newline, then the kept fragment, are the old buffer followed by the data; no line and not the fragment contains a newline |
| Channel.LinesUnique | term_proxy.py:91-92 | a text has only one decomposition into newline-terminated, newline-free lines followed by a newline-free fragment, so the contract of `FeedSpec` fixes its lines and fragment |
| Channel.FeedWithoutNewline | term_proxy.py:90-96 | data without a newline emits no line and only extends the buffer |
| Channel.FeedCompletesLine | term_proxy.py:90-96 | data holding one newline emits the buffer plus the text before the newline as one line, and keeps what follows |
| Channel.FeedInTwoReads | term_proxy.py:89-96 | buffer `""` fed `he` emits nothing and keeps `he`; buffer `he` fed `llo\nworld` emits exactly `hello` and keeps `world` |
| Channel.SendLineReadBack | term_proxy.py:68-69 | what `sendline` writes for a newline-free line is read back as exactly that one line, with nothing left over |
| Channel.PumpAppend | term_proxy.py:74-101 | the loop carries only its buffer from one round to the next: running it over two stretches of observations yields the events of the first, then those of the second started from the buffer the first left |
| Channel.PumpPreserves | term_proxy.py:82-96 | over any run of observations, the `Output` lines with their newlines, followed by the buffer, are the starting buffer followed by everything read; no output line holds a newline; the `Command` texts are the typed lines, in order |
| Channel.ChildChannel.constructor | term_proxy.py:73 | the buffer starts empty |
| Channel.ChildChannel.Feed | term_proxy.py:89-96 | returns the lines of `FeedSpec` and keeps its fragment as the new buffer; nothing is dropped or reordered, and the buffer never holds a newline |
| Channel.ChildChannel.Events | term_proxy.py:82-96 | the events yielded and the final buffer are those of the reference `Pump` over the observations, and they satisfy `Conserves` |
| Format.LeadingDigits | term_proxy.py:158 | the length of the longest run of decimal digits that starts the field text |
| Format.RenderIndexError | term_proxy.py:158 | `format(*groups)` raises `IndexError` only for a field index that is not below the number of groups, and reports that number |
| Format.RenderEscape | term_proxy.py:158 | any text with its braces doubled renders to itself, whatever the groups |
| Format.RenderPlain | term_proxy.py:158 | brace-free text renders to itself |
| Format.RenderOneField | term_proxy.py:158 | brace-free text around one field `{N}` renders to the text with group `N` in place when `N` is below the number of groups, and fails with `IndexOutOfRange(N, count)` otherwise |
| Format.HelpExampleIndexing | term_proxy.py:30 | the help text's `The user {1} has logged in.` with one group fails with `IndexOutOfRange(1, 1)`, and `{0}` gives the intended message |
| Rules.HeaderSeparator | term_proxy.py:111 | the separator `flpat` captures from a header line is a non-empty, newline-free `sep` such that the line starts with `pattern`, `sep`, `action`, `sep`, `translation`, and it is the longest such; `None` exactly when no such `sep` exists |
| Rules.SeparatorSearch | term_proxy.py:111 | greedy backtracking over lengths at most `k` finds a separator of the longest length that has one, or `None` when no length up to `k` has one |
| Rules.FileLines | term_proxy.py:126-133 | the lines of a file concatenate to its text; each is non-empty with a newline only at its end, and every line but the last ends in a newline |
| Rules.Selected | term_proxy.py:133 | the selected lines are lines of the file that contain the separator, and every line that contains it is selected; there are no more of them than lines |
| Rules.SelectedOne | term_proxy.py:133 | one line is selected exactly when it contains the separator |
| Rules.SelectedAppend | term_proxy.py:132-133 | selection keeps the file's order: the selected lines of two stretches of a file are those of the first followed by those of the second |
| Rules.RowOf | term_proxy.py:132-133 | a selected line is non-empty; joining its row with the separator gives the line without its last character, no field contains the separator, and every cut is at the leftmost occurrence |
| Rules.Rows | term_proxy.py:132-133 | there are no more rows than lines after the header |
| Rules.RowsAppend | term_proxy.py:132-133 | the rows of two stretches of a file are the rows of the first followed by those of the second, so each row depends on its own line alone |
| Rules.LoadFileShape | term_proxy.py:125-133 | a file contributes rules or an error only when its first line is a header; it then stores fewer rules than it has lines, and every stored pattern compiles |
| Rules.LoadAllCompiles | term_proxy.py:124-133 | every pattern stored while loading all the files compiles |
| Rules.Admit | term_proxy.py:139-148 | at most one rule per row; every stored pattern compiles; loading raises exactly when some row has a field count other than 3, or has a compiling pattern and an unknown action |
| Rules.AdmitSkipsUncompilable | term_proxy.py:141-145 | removing a three-field row whose pattern does not compile changes nothing |
| Rules.AdmitAppend | term_proxy.py:140 | rows are processed in order: loading `a + b` is loading `a`, then `b`, stopping at the first error |
| Rules.AdmitChain | term_proxy.py:140-148 | loading a list of rows is taking each row's own outcome (an error, nothing, or its rule) one after the other, stopping at the first error |
| Rules.AdmitAllValid | term_proxy.py:139-148 | when every row has three fields, a compiling pattern and a known action, every row is stored, in order, as that rule, and nothing raises |
| Rules.LoadAllAppend | term_proxy.py:124-133 | rules files are processed in order: loading `a + b` is loading `a`, then `b`, stopping at the first error |
| Rules.LoadAllStops | term_proxy.py:124-133 | an error raised by a file ends loading: the files after it change nothing |
| Rules.LoadSkipsHeaderless | term_proxy.py:126-129 | a file whose first line is not a header contributes no rules, and loading carries on with the next file |
| Rules.GroupNameRoundTrip | term_proxy.py:153-155 | stripping `tpp` from the group name that `__init__` builds for rule `i` (line 136) and parsing the number gives back `i` |
| Rules.DecodeIndex | term_proxy.py:154-155 | a group name gives a rule index exactly when it starts with `tpp` and the rest is a non-empty run of decimal digits |
| Rules.GroupNamesDistinct | term_proxy.py:136 | different rules have different group names |
| Rules.AlternativeRoundTrip | term_proxy.py:134-136 | the group name read from rule `i`'s alternative is `tpp` followed by `i`, whatever the pattern text, and `matches` decodes it (line 155) to `i` |
| Rules.MasterOf | term_proxy.py:134-137 | the loop building `merge` gives the `|`-join of the alternatives `(?P<tpp i>codes[i])`, one per stored rule, in order |
| Rules.Fire | term_proxy.py:156-158 | a rule fails with `NoOwnMatch` exactly when its own pattern does not match the line; it yields a pair exactly when its own pattern matches and its translation renders, and the pair carries the rule's own action and that rendering; a `BadTemplate` failure carries the error the rendering gave; any failure names that rule's index |
| Rules.Visit | term_proxy.py:153-158 | every yielded pair is the pair of the rule whose key was visited at that point, formatted with that rule's own groups; without a failure every key was visited; with one, the next rule's own firing failed with it |
| Rules.MatchLine | term_proxy.py:150-158 | nothing is yielded when the combined pattern does not match; at most one pair per rule; each pair comes from rule `order[k]` formatted with its own groups; when the combined pattern matches, `matches` finishes without raising exactly when every rule's own pattern matches and every translation renders, it then yields one pair per rule, and when it raises, the exception is that of the first visited rule that could not fire |
| Rules.CodesSnoc | term_proxy.py:147-148 | appending a rule to `patterns` and its pattern to `codes` keeps `codes` the patterns of the stored rules, in order, which is the invariant `Patterns.Valid` that every method keeps |
| Rules.Patterns.constructor | term_proxy.py:121-137 | the stored rules are those of loading every file in turn; a loading error is the constructor's error; otherwise the combined pattern is built from the stored codes and its rejection by the engine is the error |
| Rules.Patterns.LoadFiles | term_proxy.py:124-133 | the loop over the files leaves the parallel lists holding the rules of loading every file in turn, and ends with the first loading error |
| Rules.Patterns.LoadNext | term_proxy.py:125-133 | one pass of that loop extends the rules and the error from those of the first `k` files to those of the first `k + 1` |
| Rules.Patterns.Compile | term_proxy.py:134-137 | the combined pattern is the alternation of the stored codes, and the error is set exactly when the engine rejects it |
| Rules.Patterns.LoadFileInto | term_proxy.py:125-133 | one file's admitted rules are appended to both parallel lists, and its loading error is returned |
| Rules.Patterns.AddPatterns | term_proxy.py:139-148 | the admitted rows are appended, in order, to both parallel lists, which stay parallel, and the exception that stopped it is returned |
| Rules.Patterns.AddRows | term_proxy.py:140-148 | the loop over the rows appends the rules of the rows' outcomes, taken in order until the first error, which is returned |
| Rules.Patterns.AddRow | term_proxy.py:141-148 | a row whose pattern compiles and whose action is known is appended to both lists; other rows append nothing, and a wrong field count or unknown action is returned |
| Proxy.React | term_proxy.py:166-182 | the loop with the `print_` flag gives the reference `Reaction` to the yielded pairs |
| Proxy.ItemChannels | term_proxy.py:169-180 | the pairs send the `respond` texts, print the `replace` and `print` texts, and call the `function` names with the output line, each in yield order; in the model, where a user function is recorded and not run, none of them ends the proxy |
| Proxy.ReactionChannels | term_proxy.py:166-182 | for one output line: the child is sent the `respond` texts; the user sees the `replace` and `print` texts and then the raw line, exactly when `matches` finished and no `replace` or `filter` pair was yielded; the user functions are called for the `function` pairs; in the model, the proxy ends, on the last effect, exactly when `matches` raises |
| Proxy.HandleEvent | term_proxy.py:165-182 | the dispatch on the event kind gives the reference `Handle`: a command is sent, an output line gets the reaction of its yielded pairs |
| Proxy.HandleCrashesLast | term_proxy.py:165-182 | handling one event ends the proxy, if at all, only on its last effect |
| Proxy.RunStopsAtCrash | term_proxy.py:164-182 | once the proxy has ended, later events add nothing |
| Proxy.RunAppend | term_proxy.py:164 | until the proxy ends, the effects of `a + b` are those of `a` followed by those of `b` |
| Proxy.RunCrashesLast | term_proxy.py:164-182 | the whole run ends the proxy, if at all, only on its last effect |
| Proxy.Run | term_proxy.py:164-182 | the loop over events gives the reference `RunSpec` of the events |
| Proxy.RunWithoutRules | term_proxy.py:164-182 | with no rules every command is sent and every output line is shown, one effect per event, in order |
| Proxy.CommandSentVerbatim | term_proxy.py:165-166 | a typed command is sent unchanged by `sendline` (lines 68-69), and the child receives it followed by exactly one newline |
| Proxy.SingleRule | term_proxy.py:168-182 | one rule with translation `{0}` on a line matching with group `g`: its action's effect on `g`, then the raw line unless the action is `replace` or `filter` |
| Proxy.RespondWritesGroup | term_proxy.py:170-171 | a `respond` rule with translation `{0}` writes exactly the group and one newline to the child |
| Proxy.OwnPatternMissEnds | term_proxy.py:153-182 | when the combined pattern matches, the first `j` visited rules fire and the next visited rule's own pattern does not match, exactly the first `j` pairs are acted on, in visiting order, and the proxy then ends on that rule without printing the line |
| Proxy.Session | term_proxy.py:161-183 | loading the rules gives the constructor's error, if any, and then no effects; otherwise the effects are `RunSpec` over the events `Pump` yields from the observations |

## Left out

- The regular-expression engine is an abstract `Engine`. Compiling patterns, the semantics of alternation, and backreference renumbering inside the combined pattern are not modelled.
- User patterns that define their own named groups are not modelled. Their keys appear in `groupdict()`, and a name starting with `tpp` would clash with the rule index decoding.
- `select`, `raw_input` and readline, non-blocking `fcntl` setup, `subprocess.Popen`, `poll`/`returncode` liveness, and closing the child's input on EOF are operating-system I/O. The model takes the order of typed lines and output chunks as its input sequence of observations.
- Forwarding `KeyboardInterrupt` as `SIGINT` is signal handling and is not modelled.
- Terminal display details are not modelled: the `'\r'` before printed lines, echoing the partial line, and the Python 2 `print` softspace. A printed line is the effect `Show`.
- `getattr(user_functions, name)(line, sendline)` calls a foreign module. It is recorded as the effect `Call(name, line)` and not run, so sends a user function makes are not modelled.
- In the program, `getattr` raises `AttributeError` for a name the module does not define, and the user function itself may raise; either ends `proxy` on that line. The model's `Call` never ends the proxy, so the claims that only `matches` ends it (`Proxy.ItemChannels`, `Proxy.ReactionChannels`) hold of the model, not of a run with a failing user function.
- Proxy.Run: the model first computes all events of the channel and then handles them. The program interleaves reading and handling, so a crash stops later reads; the effects are the same.
- Format.Render: only literal text, `{{`, `}}` and `{N}` fields are modelled. Automatic numbering `{}`, named fields, attribute and index access, conversions and format specs all give `UnsupportedField`, whereas Python would accept some of them.
- Text.ParseDecimal: only digit strings are parsed. Python's `int` also accepts surrounding whitespace and a sign, but the group names the program builds never contain them.
- `argparse`, `main`, the `desc` and `help_patterns` texts, and opening the files are command-line glue. The model takes the files' texts as given.
