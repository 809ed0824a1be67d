/**
 catalog/server/database-browser.ts: is there more than one statement in this
 text, and which keyword does it start with? Both scanners jump over comments
 by index; what they compute is stated on the text with comments and quoted
 literals erased.
 */
module SqlBoundary {
  import opened Characters
  import opened Wrappers

  // ----- erasing comments and literals ---------------------------------------------

  /** The characters outside comments and quoted literals, up to an unterminated block comment if there is one. */
  datatype Visible = Visible(text: string, openComment: bool)

  /** The character that closes the literal `c` opens. */
  function Closer(c: char): Option<char> {
    if c == '\'' || c == '"' || c == '`' then Some(c) else if c == '[' then Some(']') else None
  }

  /** What follows the first occurrence of `mark`, if there is one. */
  function After(mark: string, s: string): (r: Option<string>)
    ensures r.Some? ==> |r.value| <= |s|
  {
    if mark <= s then Some(s[|mark|..])
    else if s == "" then None
    else After(mark, s[1..])
  }

  /** What follows a literal whose opening quote has been read. A doubled quote stays inside; brackets do not double. */
  function AfterLiteral(close: char, s: string): (r: string)
    ensures |r| <= |s|
  {
    if s == "" then ""
    else if s[0] != close then AfterLiteral(close, s[1..])
    else if close != ']' && |s| > 1 && s[1] == close then AfterLiteral(close, s[2..])
    else s[1..]
  }

  function AfterLine(s: string): (r: string)
    ensures |r| <= |s|
  {
    if After("\n", s).Some? then After("\n", s).value else ""
  }

  function Erase(sql: string): Visible
    decreases |sql|
  {
    if sql == "" then Visible("", false)
    else if "--" <= sql then Erase(AfterLine(sql[2..]))
    else if "/*" <= sql then
      match After("*/", sql[2..])
      case None => Visible("", true)
      case Some(rest) => Erase(rest)
    else if Closer(sql[0]).Some? then Erase(AfterLiteral(Closer(sql[0]).value, sql[1..]))
    else Shown(sql[0], Erase(sql[1..]))
  }

  function Shown(c: char, rest: Visible): Visible { rest.(text := [c] + rest.text) }

  predicate Statement(c: char) { c != ';' && !IsSpace(c) }

  ghost predicate HasStatement(text: string) { exists j :: 0 <= j < |text| && Statement(text[j]) }

  /** Something other than white space and semicolons comes after a semicolon. */
  ghost predicate SecondStatement(text: string) {
    exists i, j :: 0 <= i < j < |text| && text[i] == ';' && Statement(text[j])
  }

  ghost predicate Multiple(v: Visible) { v.openComment || SecondStatement(v.text) }

  lemma HasShifts(c: char, rest: string)
    ensures HasStatement([c] + rest) == (Statement(c) || HasStatement(rest))
  {
    var text := [c] + rest;
    assert text[0] == c;
    if HasStatement(rest) {
      var j :| 0 <= j < |rest| && Statement(rest[j]);
      assert text[j + 1] == rest[j];
    }
  }

  lemma SecondShifts(c: char, rest: string)
    ensures SecondStatement([c] + rest) == ((c == ';' && HasStatement(rest)) || SecondStatement(rest))
  {
    var text := [c] + rest;
    assert text[0] == c;
    if c == ';' && HasStatement(rest) {
      var j :| 0 <= j < |rest| && Statement(rest[j]);
      assert text[0] == ';' && Statement(text[j + 1]);
    }
    if SecondStatement(rest) {
      var i, j :| 0 <= i < j < |rest| && rest[i] == ';' && Statement(rest[j]);
      assert text[i + 1] == ';' && Statement(text[j + 1]);
    }
    if SecondStatement(text) {
      var i, j :| 0 <= i < j < |text| && text[i] == ';' && Statement(text[j]);
      assert Statement(rest[j - 1]);
      if i > 0 { assert rest[i - 1] == ';'; }
    }
  }

  // ----- the lexer ---------------------------------------------------------------------

  /** The answer from here on, with a separator already seen or not. */
  ghost predicate Answer(separatorSeen: bool, v: Visible) {
    Multiple(v) || (separatorSeen && HasStatement(v.text))
  }

  lemma AnswerShifts(separatorSeen: bool, c: char, rest: Visible)
    ensures Answer(separatorSeen, Shown(c, rest))
         == ((separatorSeen && Statement(c)) || Answer(separatorSeen || c == ';', rest))
  {
    HasShifts(c, rest.text);
    SecondShifts(c, rest.text);
  }

  /** What is still to be shown when the scanner stands before `rest`, inside a literal or not. */
  function Remaining(rest: string, quote: Option<char>): Visible {
    Erase(if quote.Some? then AfterLiteral(quote.value, rest) else rest)
  }

  /** `indexOf`: where the first occurrence of `mark` at or after `from` starts. */
  method IndexOf(sql: string, mark: string, from: nat) returns (at: int)
    requires mark != "" && from <= |sql|
    ensures at == -1 <==> After(mark, sql[from..]).None?
    ensures at != -1 ==> from <= at && at + |mark| <= |sql| && After(mark, sql[from..]) == Some(sql[at + |mark|..])
  {
    at := from;
    while at < |sql|
      invariant from <= at <= |sql|
      invariant After(mark, sql[at..]) == After(mark, sql[from..])
    {
      if mark <= sql[at..] {
        assert sql[at..][|mark|..] == sql[at + |mark|..];
        return;
      }
      assert sql[at..][1..] == sql[at + 1..];
      at := at + 1;
    }
    at := -1;
  }

  lemma InsideLiteral(rest: string, q: char)
    requires rest != ""
    ensures rest[0] != q ==> Remaining(rest, Some(q)) == Remaining(rest[1..], Some(q))
    ensures rest[0] == q && q != ']' && |rest| > 1 && rest[1] == q ==>
            Remaining(rest, Some(q)) == Remaining(rest[2..], Some(q))
    ensures rest[0] == q && !(q != ']' && |rest| > 1 && rest[1] == q) ==>
            Remaining(rest, Some(q)) == Remaining(rest[1..], None)
  {
  }

  predicate StartsComment(rest: string) { "--" <= rest || "/*" <= rest }

  lemma OutsideLiteral(rest: string)
    requires rest != "" && !StartsComment(rest)
    ensures Closer(rest[0]).Some? ==> Remaining(rest, None) == Remaining(rest[1..], Closer(rest[0]))
    ensures Closer(rest[0]).None? ==> Remaining(rest, None) == Shown(rest[0], Remaining(rest[1..], None))
  {
  }

  predicate StartsAt(sql: string, index: nat, a: char, b: char)
    requires index <= |sql|
    ensures StartsAt(sql, index, a, b) <==> [a, b] <= sql[index..]
  {
    index + 1 < |sql| && sql[index] == a && sql[index + 1] == b
  }

  lemma AtComment(rest: string)
    requires StartsComment(rest)
    ensures "--" <= rest ==> Remaining(rest, None) == Remaining(AfterLine(rest[2..]), None)
    ensures "/*" <= rest && After("*/", rest[2..]).None? ==> Remaining(rest, None) == Visible("", true)
    ensures "/*" <= rest && After("*/", rest[2..]).Some? ==>
              Remaining(rest, None) == Remaining(After("*/", rest[2..]).value, None)
  {
    assert "/*" <= rest ==> rest[0] == '/';
  }

  /** Where the scanner goes on after the line comment at `index`: past its newline, or at the end. */
  method SkipLineComment(sql: string, index: nat) returns (after: nat)
    requires index <= |sql| && "--" <= sql[index..]
    ensures index < after <= |sql| && AfterLine(sql[index..][2..]) == sql[after..]
  {
    var newline := IndexOf(sql, "\n", index + 2);
    assert sql[index..][2..] == sql[index + 2..];
    after := if newline == -1 then |sql| else newline + 1;
  }

  /** And after the block comment at `index`, if it ends. */
  method SkipBlockComment(sql: string, index: nat) returns (after: Option<nat>)
    requires index <= |sql| && "/*" <= sql[index..]
    ensures after.None? ==> After("*/", sql[index..][2..]).None?
    ensures after.Some? ==> index < after.value <= |sql| && After("*/", sql[index..][2..]) == Some(sql[after.value..])
  {
    var end := IndexOf(sql, "*/", index + 2);
    assert sql[index..][2..] == sql[index + 2..];
    after := if end == -1 then None else Some(end + 2);
  }

  /** Inside a literal: its end, a doubled quote, or one more character. */
  method StepInLiteral(sql: string, index: nat, quote: char) returns (next: nat, still: Option<char>)
    requires index < |sql|
    ensures index < next <= |sql| && Remaining(sql[next..], still) == Remaining(sql[index..], Some(quote))
  {
    ghost var rest := sql[index..];
    assert rest[1..] == sql[index + 1..] && (|rest| > 1 ==> rest[2..] == sql[index + 2..]);
    InsideLiteral(rest, quote);
    next, still := index + 1, Some(quote);
    if quote == ']' && sql[index] == ']' {
      still := None;
    } else if sql[index] == quote {
      if index + 1 < |sql| && sql[index + 1] == quote {
        next := index + 2;
      } else {
        still := None;
      }
    }
  }

  method HasMultipleStatements(sql: string) returns (multiple: bool)
    ensures multiple == Multiple(Erase(sql))
  {
    var separatorSeen := false;
    var quote: Option<char> := None;
    var index := 0;
    assert sql[0..] == sql;
    while index < |sql|
      invariant index <= |sql|
      invariant Answer(separatorSeen, Remaining(sql[index..], quote)) == Multiple(Erase(sql))
      decreases |sql| - index
    {
      var c := sql[index];
      ghost var rest := sql[index..];
      assert rest[1..] == sql[index + 1..];
      if quote.Some? {
        index, quote := StepInLiteral(sql, index, quote.value);
      } else if StartsAt(sql, index, '-', '-') {
        AtComment(rest);
        index := SkipLineComment(sql, index);
      } else if StartsAt(sql, index, '/', '*') {
        AtComment(rest);
        var after := SkipBlockComment(sql, index);
        if after.None? { return true; }
        index := after.value;
      } else {
        OutsideLiteral(rest);
        AnswerShifts(separatorSeen, c, Remaining(rest[1..], None));
        if c == '\'' { quote := Some('\''); }
        else if c == '"' { quote := Some('"'); }
        else if c == '`' { quote := Some('`'); }
        else if c == '[' { quote := Some(']'); }
        else if c == ';' { separatorSeen := true; }
        else if separatorSeen && !IsSpace(c) { return true; }
        index := index + 1;
      }
    }
    assert sql[index..] == "";
    multiple := false;
  }

  // ----- what erasing means -------------------------------------------------------------

  /** The pieces a writer of SQL puts together. */
  datatype Token =
    | Plain(c: char)
    | Literal(open: char, body: string)
    | LineComment(body: string)
    | BlockComment(body: string)

  /** A literal's body as written: each closing quote is doubled. */
  function Doubled(close: char, body: string): string {
    if body == "" then ""
    else (if body[0] == close then [close, close] else [body[0]]) + Doubled(close, body[1..])
  }

  predicate Writable(t: Token) {
    match t
    case Plain(c) => Closer(c).None?
    case Literal(open, body) => Closer(open).Some? && (open == '[' ==> ']' !in body)
    case LineComment(body) => '\n' !in body
    case BlockComment(body) => After("*/", body).None?
  }

  function Written(t: Token): string
    requires Writable(t)
  {
    match t
    case Plain(c) => [c]
    case Literal(open, body) => [open] + Doubled(Closer(open).value, body) + [Closer(open).value]
    case LineComment(body) => "--" + body + "\n"
    case BlockComment(body) => "/*" + body + "*/"
  }

  predicate AllWritable(ts: seq<Token>) { forall i | 0 <= i < |ts| :: Writable(ts[i]) }

  function Render(ts: seq<Token>): string
    requires AllWritable(ts)
  {
    if ts == [] then "" else Written(ts[0]) + Render(ts[1..])
  }

  /** No token runs into the next: a plain dash is not followed by a dash, nor a literal by its own quote. */
  predicate Separated(ts: seq<Token>)
    requires AllWritable(ts)
  {
    ts == [] ||
    (&& Separated(ts[1..])
     && (ts[0].Plain? ==> !StartsComment(Render(ts)))
     && (ts[0].Literal? && ts[0].open != '[' ==> !([ts[0].open] <= Render(ts[1..]))))
  }

  function Plains(ts: seq<Token>): string {
    if ts == [] then "" else (if ts[0].Plain? then [ts[0].c] else "") + Plains(ts[1..])
  }

  lemma {:induction false} LiteralEnds(close: char, body: string, rest: string)
    requires close == ']' ==> ']' !in body
    requires close != ']' ==> !([close] <= rest)
    ensures AfterLiteral(close, Doubled(close, body) + [close] + rest) == rest
  {
    var s := Doubled(close, body) + [close] + rest;
    if body == "" {
      assert s == [close] + rest && s[1..] == rest;
    } else {
      LiteralEnds(close, body[1..], rest);
      var tail := Doubled(close, body[1..]) + [close] + rest;
      if body[0] == close {
        assert s == [close, close] + tail && s[2..] == tail;
      } else {
        assert s == [body[0]] + tail && s[1..] == tail;
      }
    }
  }

  lemma {:induction false} LineEnds(body: string, rest: string)
    requires '\n' !in body
    ensures AfterLine(body + "\n" + rest) == rest
  {
    var s := body + "\n" + rest;
    if body == "" {
      assert s == "\n" + rest && s[1..] == rest;
    } else {
      LineEnds(body[1..], rest);
      assert s[1..] == body[1..] + "\n" + rest;
      assert s[0] == body[0] && body[0] in body;
    }
  }

  lemma {:induction false} BlockEnds(body: string, rest: string)
    requires After("*/", body).None?
    ensures After("*/", body + "*/" + rest) == Some(rest)
  {
    var s := body + "*/" + rest;
    if body == "" {
      assert s == "*/" + rest && s[2..] == rest;
    } else {
      BlockEnds(body[1..], rest);
      assert s[1..] == body[1..] + "*/" + rest;
      assert s[0] == body[0] && s[1] == if |body| > 1 then body[1] else '*';
      assert !("*/" <= body) && !("*/" <= s);
    }
  }

  lemma PlainErases(c: char, rest: string)
    requires Closer(c).None? && !StartsComment([c] + rest)
    ensures Erase([c] + rest) == Shown(c, Erase(rest))
  {
    assert ([c] + rest)[1..] == rest;
    OutsideLiteral([c] + rest);
  }

  lemma LiteralErases(open: char, body: string, rest: string)
    requires Writable(Literal(open, body)) && (open != '[' ==> !([open] <= rest))
    ensures Erase(Written(Literal(open, body)) + rest) == Erase(rest)
  {
    var close := Closer(open).value;
    var s := Written(Literal(open, body)) + rest;
    assert s[0] == open && s[1..] == Doubled(close, body) + [close] + rest;
    LiteralEnds(close, body, rest);
    OutsideLiteral(s);
  }

  lemma CommentErases(t: Token, rest: string)
    requires Writable(t) && (t.LineComment? || t.BlockComment?)
    ensures Erase(Written(t) + rest) == Erase(rest)
  {
    var s := Written(t) + rest;
    if t.LineComment? {
      assert s[0] == '-' && s[1] == '-' && s[2..] == t.body + "\n" + rest;
      LineEnds(t.body, rest);
    } else {
      assert s[0] == '/' && s[1] == '*' && s[2..] == t.body + "*/" + rest;
      BlockEnds(t.body, rest);
    }
    AtComment(s);
  }

  /** Erasing undoes writing: of properly written SQL, exactly the characters outside comments and literals are left. */
  lemma {:induction false} ErasingUndoesWriting(ts: seq<Token>)
    requires AllWritable(ts) && Separated(ts)
    ensures Erase(Render(ts)) == Visible(Plains(ts), false)
  {
    if ts != [] {
      ErasingUndoesWriting(ts[1..]);
      var rest := Render(ts[1..]);
      match ts[0]
      case Plain(c) => PlainErases(c, rest);
      case Literal(open, body) => LiteralErases(open, body, rest);
      case _ => CommentErases(ts[0], rest);
    }
  }

  // ----- the first keyword ------------------------------------------------------------------

  function DropSpaces(s: string): (r: string)
    ensures |r| <= |s|
  {
    if s != "" && IsSpace(s[0]) then DropSpaces(s[1..]) else s
  }

  /** The text from its first character outside white space and comments on; none if a comment does not end. */
  function Lead(sql: string): (r: Option<string>)
    decreases |sql|
  {
    var s := DropSpaces(sql);
    if "--" <= s then Lead(AfterLine(s[2..]))
    else if "/*" <= s then (if After("*/", s[2..]).Some? then Lead(After("*/", s[2..]).value) else None)
    else Some(s)
  }

  function Letters(s: string): (r: string)
    ensures r <= s && forall i | 0 <= i < |r| :: IsLetter(r[i])
  {
    if s != "" && IsLetter(s[0]) then [s[0]] + Letters(s[1..]) else ""
  }

  function Uppercase(s: string): string { seq(|s|, i requires 0 <= i < |s| => Upper(s[i])) }

  function Keyword(sql: string): Option<string> {
    if Lead(sql).Some? && Letters(Lead(sql).value) != "" then Some(Uppercase(Letters(Lead(sql).value))) else None
  }

  method SkipSpaces(sql: string, from: nat) returns (index: nat)
    requires from <= |sql|
    ensures from <= index <= |sql| && sql[index..] == DropSpaces(sql[from..])
  {
    index := from;
    while index < |sql| && IsSpace(sql[index])
      invariant from <= index <= |sql|
      invariant DropSpaces(sql[index..]) == DropSpaces(sql[from..])
    {
      assert sql[index..][1..] == sql[index + 1..];
      index := index + 1;
    }
  }

  method FirstKeyword(sql: string) returns (keyword: Option<string>)
    ensures keyword == Keyword(sql)
  {
    var index := 0;
    assert sql[0..] == sql;
    while index < |sql|
      invariant index <= |sql|
      invariant Lead(sql[index..]) == Lead(sql)
      decreases |sql| - index
    {
      index := SkipSpaces(sql, index);
      if StartsAt(sql, index, '-', '-') {
        index := SkipLineComment(sql, index);
      } else if StartsAt(sql, index, '/', '*') {
        assert sql[index..][0] == '/';
        var after := SkipBlockComment(sql, index);
        if after.None? { return None; }
        index := after.value;
      } else {
        break;
      }
    }
    assert Lead(sql) == Some(sql[index..]);
    var word := Letters(sql[index..]);
    keyword := if word == "" then None else Some(Uppercase(word));
  }

  lemma {:induction false} SpacesAreShown(s: string)
    ensures DropSpaces(Erase(s).text) == DropSpaces(Erase(DropSpaces(s)).text)
  {
    if s != "" && IsSpace(s[0]) {
      SpacesAreShown(s[1..]);
      OutsideLiteral(s);
      assert Erase(s).text[1..] == Erase(s[1..]).text;
    }
  }

  /** Skipping to the first word drops nothing but white space from what the lexer shows. */
  lemma {:induction false} LeadIsVisible(sql: string)
    requires Lead(sql).Some?
    ensures DropSpaces(Erase(sql).text) == DropSpaces(Erase(Lead(sql).value).text)
    decreases |sql|
  {
    var s := DropSpaces(sql);
    SpacesAreShown(sql);
    if "--" <= s {
      LeadIsVisible(AfterLine(s[2..]));
    } else if "/*" <= s {
      LeadIsVisible(After("*/", s[2..]).value);
    }
  }

  lemma {:induction false} LettersAreShown(s: string)
    ensures Letters(s) <= Erase(s).text
  {
    if s != "" && IsLetter(s[0]) {
      LettersAreShown(s[1..]);
      OutsideLiteral(s);
    }
  }

  /** The keyword that is checked is the one the visible statement starts with, so a comment cannot hide another. */
  lemma KeywordStartsTheStatement(sql: string)
    requires Keyword(sql).Some?
    ensures var shown := DropSpaces(Erase(sql).text);
            exists word :: word <= shown && word != "" && Uppercase(word) == Keyword(sql).value
  {
    var s := Lead(sql).value;
    LeadIsVisible(sql);
    LettersAreShown(s);
    var word := Letters(s);
    assert IsLetter(Erase(s).text[0]);
    assert word <= DropSpaces(Erase(sql).text);
  }

  // ----- what a writer of SQL gets ------------------------------------------------------------

  /** Four characters open a literal, and three of them close it too. */
  lemma QuotesExactly(c: char)
    ensures Closer(c) ==
            match c
            case '\'' => Some('\'')
            case '"' => Some('"')
            case '`' => Some('`')
            case '[' => Some(']')
            case _ => None
  {
  }

  /** White space, character by character. */
  lemma SpacesExactly(c: char)
    ensures IsSpace(c) <==>
            c in {'\t', '\n', '\U{000B}', '\U{000C}', '\r', ' ', '\U{00A0}', '\U{1680}', '\U{2000}', '\U{2001}',
                  '\U{2002}', '\U{2003}', '\U{2004}', '\U{2005}', '\U{2006}', '\U{2007}', '\U{2008}', '\U{2009}',
                  '\U{200A}', '\U{2028}', '\U{2029}', '\U{202F}', '\U{205F}', '\U{3000}', '\U{FEFF}'}
  {
  }

  /** A written text has more than one statement exactly when its plain characters go on after a semicolon. */
  lemma MultipleAsWritten(ts: seq<Token>)
    requires AllWritable(ts) && Separated(ts)
    ensures Multiple(Erase(Render(ts))) <==>
            exists i, j :: 0 <= i < j < |Plains(ts)| && Plains(ts)[i] == ';'
                           && Plains(ts)[j] != ';' && !IsSpace(Plains(ts)[j])
  {
    ErasingUndoesWriting(ts);
    var text := Plains(ts);
    if i, j :| 0 <= i < j < |text| && text[i] == ';' && text[j] != ';' && !IsSpace(text[j]) {
      assert text[i] == ';' && Statement(text[j]);
    }
    if SecondStatement(text) {
      var i, j :| 0 <= i < j < |text| && text[i] == ';' && Statement(text[j]);
    }
  }

  lemma TokenErases(t: Token, rest: string)
    requires Writable(t) && (t.Plain? ==> !StartsComment([t.c] + rest))
    requires t.Literal? && t.open != '[' ==> !([t.open] <= rest)
    ensures Erase(Written(t) + rest) ==
            Visible((if t.Plain? then [t.c] else "") + Erase(rest).text, Erase(rest).openComment)
  {
    match t
    case Plain(c) => PlainErases(c, rest);
    case Literal(open, body) => LiteralErases(open, body, rest);
    case _ => CommentErases(t, rest);
  }

  lemma RendersFirst(ts: seq<Token>, tail: string)
    requires ts != [] && AllWritable(ts)
    ensures Render(ts) + tail == Written(ts[0]) + (Render(ts[1..]) + tail)
    ensures Plains(ts) == (if ts[0].Plain? then [ts[0].c] else "") + Plains(ts[1..])
  {
  }

  lemma {:induction false} TextGrows(ts: seq<Token>, tail: string)
    requires AllWritable(ts) && SeparatedFrom(ts, tail)
    ensures Erase(Render(ts) + tail) == Visible(Plains(ts) + Erase(tail).text, Erase(tail).openComment)
  {
    if ts == [] {
      assert "" + tail == tail && "" + Erase(tail).text == Erase(tail).text;
    } else {
      TextGrows(ts[1..], tail);
      RendersFirst(ts, tail);
      TokenErases(ts[0], Render(ts[1..]) + tail);
      Regroup(if ts[0].Plain? then [ts[0].c] else "", Plains(ts[1..]), Erase(tail).text);
    }
  }

  lemma Regroup(a: string, b: string, c: string)
    ensures a + (b + c) == (a + b) + c
  {
  }

  /** No token runs into the next, or into the text that follows them all. */
  predicate SeparatedFrom(ts: seq<Token>, tail: string)
    requires AllWritable(ts)
  {
    ts == [] ||
    (&& SeparatedFrom(ts[1..], tail)
     && (ts[0].Plain? ==> !StartsComment(Render(ts) + tail))
     && (ts[0].Literal? && ts[0].open != '[' ==> !([ts[0].open] <= Render(ts[1..]) + tail)))
  }

  /** A comment that is opened and not closed makes any text more than one statement, whatever comes before it. */
  lemma OpenCommentIsMultiple(ts: seq<Token>, body: string)
    requires AllWritable(ts) && SeparatedFrom(ts, "/*" + body) && After("*/", body).None?
    ensures Multiple(Erase(Render(ts) + ("/*" + body)))
  {
    TextGrows(ts, "/*" + body);
    assert ("/*" + body)[2..] == body;
    AtComment("/*" + body);
    assert Remaining("/*" + body, None) == Erase("/*" + body);
  }

  predicate IsBlank(t: Token) { t.LineComment? || t.BlockComment? || (t.Plain? && IsSpace(t.c)) }

  predicate AllBlank(ts: seq<Token>) { forall i | 0 <= i < |ts| :: IsBlank(ts[i]) }

  lemma SpaceLeads(c: char, rest: string)
    requires IsSpace(c)
    ensures Lead([c] + rest) == Lead(rest)
  {
    assert ([c] + rest)[1..] == rest;
    assert DropSpaces([c] + rest) == DropSpaces(rest);
  }

  lemma CommentLeads(t: Token, rest: string)
    requires Writable(t) && (t.LineComment? || t.BlockComment?)
    ensures Lead(Written(t) + rest) == Lead(rest)
  {
    var s := Written(t) + rest;
    if t.LineComment? {
      assert s[0] == '-' && s[1] == '-' && s[2..] == t.body + "\n" + rest;
      LineEnds(t.body, rest);
    } else {
      assert s[0] == '/' && s[1] == '*' && s[2..] == t.body + "*/" + rest;
      BlockEnds(t.body, rest);
    }
    assert DropSpaces(s) == s;
  }

  lemma {:induction false} BlanksLead(ts: seq<Token>, rest: string)
    requires AllWritable(ts) && AllBlank(ts)
    ensures Lead(Render(ts) + rest) == Lead(rest)
  {
    if ts == [] {
      assert "" + rest == rest;
    } else {
      BlanksLead(ts[1..], rest);
      assert IsBlank(ts[0]);
      assert Render(ts) + rest == Written(ts[0]) + (Render(ts[1..]) + rest);
      if ts[0].Plain? {
        SpaceLeads(ts[0].c, Render(ts[1..]) + rest);
      } else {
        CommentLeads(ts[0], Render(ts[1..]) + rest);
      }
    }
  }

  predicate IsWord(s: string) { forall c | c in s :: 'a' <= c <= 'z' || 'A' <= c <= 'Z' }

  lemma {:induction false} LettersOfWord(word: string, rest: string)
    requires IsWord(word) && (rest != "" ==> !('a' <= rest[0] <= 'z') && !('A' <= rest[0] <= 'Z'))
    ensures Letters(word + rest) == word
  {
    if word == "" {
      assert word + rest == rest;
    } else {
      assert word[0] in word && (word + rest)[1..] == word[1..] + rest;
      assert forall c | c in word[1..] :: c in word;
      LettersOfWord(word[1..], rest);
    }
  }

  /** Behind any white space and comments, the keyword is the whole first word, in capitals. */
  lemma KeywordAsWritten(ts: seq<Token>, word: string, rest: string)
    requires AllWritable(ts) && AllBlank(ts) && IsWord(word)
    requires rest != "" ==> !('a' <= rest[0] <= 'z') && !('A' <= rest[0] <= 'Z')
    requires word == "" ==> rest != "" && !IsSpace(rest[0]) && !StartsComment(rest)
    ensures var keyword := Keyword(Render(ts) + (word + rest));
            if word == "" then keyword == None
            else keyword.Some? && |keyword.value| == |word|
                 && forall i | 0 <= i < |word| ::
                      keyword.value[i] == if 'a' <= word[i] <= 'z' then word[i] - 'a' + 'A' else word[i]
  {
    var s := word + rest;
    BlanksLead(ts, s);
    if word != "" { assert word[0] in word && s[0] == word[0]; } else { assert s == rest; }
    assert DropSpaces(s) == s && Lead(s) == Some(s);
    LettersOfWord(word, rest);
  }
}
