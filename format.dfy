/** The part of Python's format-string syntax that rule translations use:
    literal text, the escapes `{{` and `}}`, and positional fields `{N}`,
    where `N` counts the capture groups from 0
    (term_proxy.py:158 calls `trans.format(*match.groups())`). */
module Format {
  import opened Wrappers
  import opened Text

  datatype FormatError =
    | IndexOutOfRange(index: nat, available: nat)  // `{N}` with N not below the number of groups
    | UnsupportedField                             // a lone brace, or a field other than `{N}`

  /** `str(g)` for a capture group: a group that took no part in the match is `None`. */
  function GroupText(g: Option<string>): string {
    match g
    case Some(s) => s
    case None => "None"
  }

  /** The number of decimal digits at the start of `s`. */
  function LeadingDigits(s: string): (n: nat)
    ensures n <= |s| && AllDigits(s[..n])
    ensures n < |s| ==> !IsDigit(s[n])
  {
    if |s| == 0 || !IsDigit(s[0]) then 0
    else
      var m := LeadingDigits(s[1..]);
      assert s[..1 + m] == [s[0]] + s[1..][..m];
      1 + m
  }

  function Prepend(p: string, r: Result<string, FormatError>): Result<string, FormatError> {
    match r
    case Ok(t) => Ok(p + t)
    case Err(e) => Err(e)
  }

  /** `template.format(*groups)`, rendered from left to right; the first
      malformed or out-of-range field is the error. */
  function Render(template: string, groups: seq<Option<string>>): Result<string, FormatError>
    decreases |template|
  {
    if |template| == 0 then Ok("")
    else if template[0] == '{' then
      if |template| >= 2 && template[1] == '{' then Prepend("{", Render(template[2..], groups))
      else RenderField(template[1..], groups)
    else if template[0] == '}' then
      if |template| >= 2 && template[1] == '}' then Prepend("}", Render(template[2..], groups))
      else Err(UnsupportedField)
    else Prepend([template[0]], Render(template[1..], groups))
  }

  /** The rest of a template after an opening brace that is not doubled. */
  function RenderField(body: string, groups: seq<Option<string>>): Result<string, FormatError>
    decreases |body|, 0
  {
    var n := LeadingDigits(body);
    if 0 < n < |body| && body[n] == '}' then
      var index := DecimalValue(body[..n]);
      if index < |groups| then Prepend(GroupText(groups[index]), Render(body[n + 1..], groups))
      else Err(IndexOutOfRange(index, |groups|))
    else Err(UnsupportedField)
  }

  /** `IndexError` is raised only for a field index that is not below the number of
      groups, and it reports that number. */
  lemma {:induction false} RenderIndexError(template: string, groups: seq<Option<string>>)
    ensures var r := Render(template, groups);
      r.Err? && r.error.IndexOutOfRange? ==> r.error.available == |groups| <= r.error.index
    decreases |template|
  {
    if |template| > 0 {
      if template[0] == '{' {
        if |template| >= 2 && template[1] == '{' {
          RenderIndexError(template[2..], groups);
        } else {
          var body := template[1..];
          var n := LeadingDigits(body);
          if 0 < n < |body| && body[n] == '}' && DecimalValue(body[..n]) < |groups| {
            RenderIndexError(body[n + 1..], groups);
          }
        }
      } else if template[0] == '}' {
        if |template| >= 2 && template[1] == '}' {
          RenderIndexError(template[2..], groups);
        }
      } else {
        RenderIndexError(template[1..], groups);
      }
    }
  }

  predicate BraceFree(s: string) {
    '{' !in s && '}' !in s
  }

  /** Text without braces is copied unchanged, whatever the groups. */
  lemma {:induction false} RenderLiteral(lit: string, rest: string, groups: seq<Option<string>>)
    requires BraceFree(lit)
    ensures Render(lit + rest, groups) == Prepend(lit, Render(rest, groups))
    decreases |lit|
  {
    if |lit| > 0 {
      var t := lit + rest;
      assert lit[0] in lit;
      assert t[0] == lit[0] && t[1..] == lit[1..] + rest;
      assert BraceFree(lit[1..]) by {
        forall c | c in lit[1..] ensures c in lit { }
      }
      RenderLiteral(lit[1..], rest, groups);
      assert lit == [lit[0]] + lit[1..];
      if Render(rest, groups).Ok? {
        var r := Render(rest, groups).value;
        assert [lit[0]] + (lit[1..] + r) == lit + r;
      }
    } else {
      assert lit + rest == rest;
      if Render(rest, groups).Ok? {
        assert "" + Render(rest, groups).value == Render(rest, groups).value;
      }
    }
  }

  /** A field `{N}` written with `%d` renders group N (counted from 0), or fails when
      there are not more than N groups. */
  lemma RenderIndexField(n: nat, rest: string, groups: seq<Option<string>>)
    ensures Render("{" + DecimalString(n) + "}" + rest, groups)
         == if n < |groups| then Prepend(GroupText(groups[n]), Render(rest, groups))
            else Err(IndexOutOfRange(n, |groups|))
  {
    var d := DecimalString(n);
    var body := d + "}" + rest;
    var t := "{" + d + "}" + rest;
    assert t == "{" + body;
    assert t[0] == '{' && t[1] == d[0] && t[1..] == body;
    assert Render(t, groups) == RenderField(body, groups);
    FieldBody(d, rest, groups);
    DecimalRoundTrip(n);
  }

  lemma FieldBody(d: string, rest: string, groups: seq<Option<string>>)
    requires |d| > 0 && AllDigits(d)
    ensures RenderField(d + "}" + rest, groups)
         == if DecimalValue(d) < |groups| then Prepend(GroupText(groups[DecimalValue(d)]), Render(rest, groups))
            else Err(IndexOutOfRange(DecimalValue(d), |groups|))
  {
    var body := d + "}" + rest;
    assert body == d + ("}" + rest);
    LeadingDigitsOf(d, "}" + rest);
    assert body[..|d|] == d && body[|d|] == '}' && body[|d| + 1..] == rest;
  }

  lemma {:induction false} LeadingDigitsOf(d: string, rest: string)
    requires AllDigits(d)
    requires |rest| > 0 && !IsDigit(rest[0])
    ensures LeadingDigits(d + rest) == |d|
    decreases |d|
  {
    if |d| > 0 {
      assert (d + rest)[0] == d[0];
      assert (d + rest)[1..] == d[1..] + rest;
      LeadingDigitsOf(d[1..], rest);
    } else {
      assert d + rest == rest;
    }
  }

  /** Doubles every brace, so that the result renders back to `s`. */
  function Escape(s: string): string {
    if |s| == 0 then ""
    else if s[0] == '{' then "{{" + Escape(s[1..])
    else if s[0] == '}' then "}}" + Escape(s[1..])
    else [s[0]] + Escape(s[1..])
  }

  /** Rendering an escaped text gives the text back, for any groups. */
  lemma {:induction false} RenderEscape(s: string, groups: seq<Option<string>>)
    ensures Render(Escape(s), groups) == Ok(s)
    decreases |s|
  {
    if |s| > 0 {
      RenderEscape(s[1..], groups);
      var t := Escape(s);
      if s[0] == '{' {
        assert t[0] == '{' && t[1] == '{' && t[2..] == Escape(s[1..]);
      } else if s[0] == '}' {
        assert t[0] == '}' && t[1] == '}' && t[2..] == Escape(s[1..]);
      } else {
        assert t[0] == s[0] && t[1..] == Escape(s[1..]);
      }
      assert s == [s[0]] + s[1..];
    }
  }

  /** A translation made of brace-free text around one field `{N}`. */
  lemma RenderOneField(head: string, n: nat, tail: string, groups: seq<Option<string>>)
    requires BraceFree(head) && BraceFree(tail)
    ensures Render(head + "{" + DecimalString(n) + "}" + tail, groups)
         == if n < |groups| then Ok(head + GroupText(groups[n]) + tail)
            else Err(IndexOutOfRange(n, |groups|))
  {
    var field := "{" + DecimalString(n) + "}" + tail;
    assert head + "{" + DecimalString(n) + "}" + tail == head + field;
    RenderAfterLiteral(head, field, groups);
    var inner := Render(field, groups);
    assert inner == if n < |groups| then Ok(GroupText(groups[n]) + tail)
                    else Err(IndexOutOfRange(n, |groups|)) by {
      RenderIndexField(n, tail, groups);
      RenderPlain(tail, groups);
    }
    if n < |groups| {
      PrependTwice(head, GroupText(groups[n]), tail);
    }
  }

  lemma PrependTwice(head: string, g: string, tail: string)
    ensures Prepend(head, Ok(g + tail)) == Ok(head + g + tail)
  {
    assert head + (g + tail) == head + g + tail;
  }

  lemma RenderAfterLiteral(head: string, field: string, groups: seq<Option<string>>)
    requires BraceFree(head)
    ensures Render(head + field, groups) == Prepend(head, Render(field, groups))
  {
    RenderLiteral(head, field, groups);
  }

  /** Text without braces renders to itself. */
  lemma RenderPlain(text: string, groups: seq<Option<string>>)
    requires BraceFree(text)
    ensures Render(text, groups) == Ok(text)
  {
    RenderLiteral(text, "", groups);
    assert text + "" == text;
  }

  /** The translation from the help text, `The user {1} has logged in.`, applied to a
      pattern with one group fails: fields count from 0, so `{1}` is the second group. */
  lemma HelpExampleIndexing(user: string)
    ensures Render("The user {1} has logged in.", [Some(user)]) == Err(IndexOutOfRange(1, 1))
    ensures Render("The user {0} has logged in.", [Some(user)]) == Ok("The user " + user + " has logged in.")
  {
    assert DigitChar(1) == '1' && DigitChar(0) == '0';
    assert "The user {1} has logged in." == "The user {" + [DigitChar(1)] + "} has logged in.";
    assert "The user {0} has logged in." == "The user {" + [DigitChar(0)] + "} has logged in.";
    HelpExampleField(1, user);
    HelpExampleField(0, user);
  }

  /** The help text's translation with the one-digit field `{n}`, for one group. */
  lemma HelpExampleField(n: nat, user: string)
    requires n < 10
    ensures Render("The user {" + [DigitChar(n)] + "} has logged in.", [Some(user)])
         == if n == 0 then Ok("The user " + user + " has logged in.") else Err(IndexOutOfRange(n, 1))
  {
    var head, tail := "The user ", " has logged in.";
    assert BraceFree(head) && BraceFree(tail);
    assert "The user {" + [DigitChar(n)] + "} has logged in." == head + "{" + DecimalString(n) + "}" + tail;
    RenderOneField(head, n, tail, [Some(user)]);
  }
}
