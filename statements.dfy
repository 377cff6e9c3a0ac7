/**
 * The statement builder of src/run-on-golem/run-on-golem.action.ts (`parseTokens`,
 * `handleHelp`). Tokenising and variable substitution belong to the foreign
 * `shell-quote` library, so its output is the input here.
 */
module Statements {
  import opened Wrappers

  /** One entry of the tokenizer's output. */
  datatype Token = Str(s: string) | Comment(comment: string) | Op(op: string)

  /** The argument vector of one command invocation (`ParseResult.arguments`). */
  type Statement = seq<string>

  /** The source's `ParseError`; its message is "Unsupported operator: " + op. */
  datatype ParseError = UnsupportedOperator(op: string) {
    function Message(): string {
      "Unsupported operator: " + op
    }
  }

  type BuildResult = Result<seq<Statement>, ParseError>

  /** Emit `current` when it holds at least one argument. */
  function Close(done: seq<Statement>, current: Statement): seq<Statement> {
    if |current| > 0 then done + [current] else done
  }

  /**
   * The builder's loop from the state (`current`, `done`) over the remaining `tokens`.
   * With `stopAtEmpty` the loop also ends at an empty string token, as the source's
   * `while ((token = tokens.shift()))` does because "" is falsy.
   */
  function Scan(tokens: seq<Token>, current: Statement, done: seq<Statement>, stopAtEmpty: bool): BuildResult
    decreases |tokens|
  {
    if |tokens| == 0 then Success(Close(done, current))
    else match tokens[0]
      case Str(s) =>
        if stopAtEmpty && s == "" then Success(Close(done, current))
        else Scan(tokens[1..], current + [s], done, stopAtEmpty)
      case Comment(_) => Success(Close(done, current))
      case Op(o) =>
        if o == ";" then Scan(tokens[1..], [], Close(done, current), stopAtEmpty)
        else Failure(UnsupportedOperator(o))
  }

  /** `parseTokens` as written: the loop also stops at the first empty string token. */
  function BuildAsWritten(tokens: seq<Token>): BuildResult {
    Scan(tokens, [], [], true)
  }

  /** `parseTokens` with the loop running until the tokens are exhausted. */
  function BuildStatements(tokens: seq<Token>): BuildResult {
    Scan(tokens, [], [], false)
  }

  /**
   * The builder loop as written, shifting one token at a time; the loop condition is the
   * truthiness of the shifted token, so an empty string token ends it like the end of input.
   */
  method ParseTokens(tokens: seq<Token>) returns (r: BuildResult)
    ensures r == BuildAsWritten(tokens)
  {
    var rest := tokens;
    var results: seq<Statement> := [];
    var current: Statement := [];
    while |rest| > 0 && rest[0] != Str("")
      invariant Scan(rest, current, results, true) == BuildAsWritten(tokens)
    {
      var token := rest[0];
      rest := rest[1..];
      match token
      case Str(s) =>
        current := current + [s];
      case Comment(_) =>
        break;
      case Op(o) =>
        if o == ";" {
          if |current| > 0 {
            results := results + [current];
          }
          current := [];
        } else {
          return Failure(UnsupportedOperator(o));
        }
    }
    if |current| > 0 {
      results := results + [current];
    }
    r := Success(results);
  }

  /** `handleHelp`: the line exactly "?" stands for the statement `help`. */
  function HandleHelp(line: string): (r: Option<seq<Token>>)
    ensures r.Some? <==> line == "?"
    ensures r.Some? ==> BuildAsWritten(r.value) == Success([["help"]])
    ensures r.Some? ==> BuildStatements(r.value) == Success([["help"]])
  {
    if line == "?" then
      var t := [Str("help")];
      var none: seq<string> := [];
      var noStatements: seq<Statement> := [];
      assert t[1..] == [] && none + ["help"] == ["help"] && noStatements + [["help"]] == [["help"]];
      Some(t)
    else None
  }

  /** All arguments of a list of statements, in order. */
  function Flatten(statements: seq<Statement>): seq<string> {
    if |statements| == 0 then [] else Flatten(statements[..|statements| - 1]) + statements[|statements| - 1]
  }

  /**
   * A token that ends the builder's loop: a comment, and with `stopAtEmpty` also an
   * empty string token.
   */
  predicate Ends(t: Token, stopAtEmpty: bool) {
    t.Comment? || (stopAtEmpty && t == Str(""))
  }

  /** The string tokens that come before the first token that ends the loop. */
  function StringsBeforeEnd(tokens: seq<Token>, stopAtEmpty: bool): seq<string> {
    if |tokens| == 0 || Ends(tokens[0], stopAtEmpty) then []
    else if tokens[0].Str? then [tokens[0].s] + StringsBeforeEnd(tokens[1..], stopAtEmpty)
    else StringsBeforeEnd(tokens[1..], stopAtEmpty)
  }

  /** A token that ends or aborts the builder: one that `Ends` it, or an unsupported operator. */
  predicate Blocking(t: Token, stopAtEmpty: bool) {
    Ends(t, stopAtEmpty) || (t.Op? && t.op != ";")
  }

  lemma FlattenClose(done: seq<Statement>, current: Statement)
    ensures Flatten(Close(done, current)) == Flatten(done) + current
  {
    if |current| > 0 {
      assert (done + [current])[..|done|] == done;
    } else {
      assert Flatten(done) + current == Flatten(done);
    }
  }

  lemma {:induction false} ScanNonEmpty(tokens: seq<Token>, current: Statement, done: seq<Statement>, stopAtEmpty: bool)
    requires forall k :: 0 <= k < |done| ==> |done[k]| > 0
    ensures var r := Scan(tokens, current, done, stopAtEmpty);
      r.Success? ==> forall k :: 0 <= k < |r.value| ==> |r.value[k]| > 0
    decreases |tokens|
  {
    if |tokens| > 0 {
      match tokens[0]
      case Str(s) =>
        ScanNonEmpty(tokens[1..], current + [s], done, stopAtEmpty);
      case Comment(_) =>
      case Op(o) =>
        ScanNonEmpty(tokens[1..], [], Close(done, current), stopAtEmpty);
    }
  }

  /** Every emitted statement has at least one argument, whichever loop condition is used. */
  lemma StatementsNonEmpty(tokens: seq<Token>, stopAtEmpty: bool)
    ensures var r := Scan(tokens, [], [], stopAtEmpty);
      r.Success? ==> forall k :: 0 <= k < |r.value| ==> |r.value[k]| > 0
  {
    ScanNonEmpty(tokens, [], [], stopAtEmpty);
  }

  lemma {:induction false} ScanFlatten(tokens: seq<Token>, current: Statement, done: seq<Statement>, stopAtEmpty: bool)
    ensures var r := Scan(tokens, current, done, stopAtEmpty);
      r.Success? ==> Flatten(r.value) == Flatten(done) + current + StringsBeforeEnd(tokens, stopAtEmpty)
    decreases |tokens|
  {
    if |tokens| == 0 {
      FlattenClose(done, current);
    } else {
      match tokens[0]
      case Str(s) =>
        if stopAtEmpty && s == "" {
          FlattenClose(done, current);
        } else {
          ScanFlatten(tokens[1..], current + [s], done, stopAtEmpty);
        }
      case Comment(_) =>
        FlattenClose(done, current);
      case Op(o) =>
        if o == ";" {
          ScanFlatten(tokens[1..], [], Close(done, current), stopAtEmpty);
          FlattenClose(done, current);
        }
    }
  }

  /**
   * The arguments of all statements, concatenated, are exactly the string tokens before
   * the token that ends the loop, in order: no operator ever becomes an argument.
   */
  lemma ArgumentsAreStringsBeforeEnd(tokens: seq<Token>, stopAtEmpty: bool)
    ensures var r := Scan(tokens, [], [], stopAtEmpty);
      r.Success? ==> Flatten(r.value) == StringsBeforeEnd(tokens, stopAtEmpty)
  {
    ScanFlatten(tokens, [], [], stopAtEmpty);
  }

  lemma {:induction false} ScanStopsAt(pre: seq<Token>, t: Token, post: seq<Token>,
                                      current: Statement, done: seq<Statement>, stopAtEmpty: bool)
    requires Ends(t, stopAtEmpty)
    ensures Scan(pre + [t] + post, current, done, stopAtEmpty) == Scan(pre, current, done, stopAtEmpty)
    decreases |pre|
  {
    var all := pre + [t] + post;
    if |pre| > 0 {
      assert all[0] == pre[0] && all[1..] == pre[1..] + [t] + post;
      match pre[0]
      case Str(s) =>
        if !(stopAtEmpty && s == "") {
          ScanStopsAt(pre[1..], t, post, current + [s], done, stopAtEmpty);
        }
      case Comment(_) =>
      case Op(o) => ScanStopsAt(pre[1..], t, post, [], Close(done, current), stopAtEmpty);
    } else {
      assert all[0] == t;
    }
  }

  /** A comment ends consumption: nothing after it changes the outcome. */
  lemma CommentEndsLine(pre: seq<Token>, c: string, post: seq<Token>, stopAtEmpty: bool)
    ensures Scan(pre + [Comment(c)] + post, [], [], stopAtEmpty) == Scan(pre, [], [], stopAtEmpty)
  {
    ScanStopsAt(pre, Comment(c), post, [], [], stopAtEmpty);
  }

  /** As written, an empty string token ends consumption just as a comment does. */
  lemma EmptyStringEndsLine(pre: seq<Token>, post: seq<Token>)
    ensures BuildAsWritten(pre + [Str("")] + post) == BuildAsWritten(pre)
  {
    ScanStopsAt(pre, Str(""), post, [], [], true);
  }

  lemma {:induction false} ScanRejects(tokens: seq<Token>, i: nat, current: Statement, done: seq<Statement>,
                                      stopAtEmpty: bool)
    requires i < |tokens| && tokens[i].Op? && tokens[i].op != ";"
    requires forall j :: 0 <= j < i ==> !Blocking(tokens[j], stopAtEmpty)
    ensures Scan(tokens, current, done, stopAtEmpty) == Failure(UnsupportedOperator(tokens[i].op))
    decreases i
  {
    if i > 0 {
      assert !Blocking(tokens[0], stopAtEmpty);
      match tokens[0]
      case Str(s) => ScanRejects(tokens[1..], i - 1, current + [s], done, stopAtEmpty);
      case Op(o) => ScanRejects(tokens[1..], i - 1, [], Close(done, current), stopAtEmpty);
    }
  }

  /** An operator other than ";" before anything that ends the loop is a `ParseError` naming it. */
  lemma UnsupportedOperatorRejected(tokens: seq<Token>, i: nat, stopAtEmpty: bool)
    requires i < |tokens| && tokens[i].Op? && tokens[i].op != ";"
    requires forall j :: 0 <= j < i ==> !Blocking(tokens[j], stopAtEmpty)
    ensures Scan(tokens, [], [], stopAtEmpty) == Failure(UnsupportedOperator(tokens[i].op))
  {
    ScanRejects(tokens, i, [], [], stopAtEmpty);
  }

  /** The cause found one token further on is a cause of the whole list. */
  lemma CauseShifts(tokens: seq<Token>, op: string, stopAtEmpty: bool)
    requires |tokens| > 0 && !Blocking(tokens[0], stopAtEmpty)
    requires exists i :: (0 <= i < |tokens[1..]| && tokens[1..][i] == Op(op)
                          && forall j :: 0 <= j < i ==> !Blocking(tokens[1..][j], stopAtEmpty))
    ensures exists i :: (0 <= i < |tokens| && tokens[i] == Op(op)
                         && forall j :: 0 <= j < i ==> !Blocking(tokens[j], stopAtEmpty))
  {
    var i :| 0 <= i < |tokens[1..]| && tokens[1..][i] == Op(op)
      && forall j :: 0 <= j < i ==> !Blocking(tokens[1..][j], stopAtEmpty);
    assert tokens[i + 1] == Op(op);
    forall j | 0 <= j < i + 1 ensures !Blocking(tokens[j], stopAtEmpty) {
      if j > 0 { assert tokens[j] == tokens[1..][j - 1]; }
    }
  }

  lemma {:induction false} ScanFailureCause(tokens: seq<Token>, current: Statement, done: seq<Statement>,
                                           stopAtEmpty: bool)
    ensures var r := Scan(tokens, current, done, stopAtEmpty);
      r.Failure? ==> exists i :: (0 <= i < |tokens| && tokens[i] == Op(r.error.op) && r.error.op != ";"
                                  && forall j :: 0 <= j < i ==> !Blocking(tokens[j], stopAtEmpty))
    decreases |tokens|
  {
    var r := Scan(tokens, current, done, stopAtEmpty);
    if |tokens| > 0 && r.Failure? {
      match tokens[0]
      case Str(s) =>
        ScanFailureCause(tokens[1..], current + [s], done, stopAtEmpty);
        CauseShifts(tokens, r.error.op, stopAtEmpty);
      case Op(o) =>
        if o == ";" {
          ScanFailureCause(tokens[1..], [], Close(done, current), stopAtEmpty);
          CauseShifts(tokens, r.error.op, stopAtEmpty);
        } else {
          assert tokens[0] == Op(r.error.op);
        }
    }
  }

  /** A `ParseError` is only ever raised for an unsupported operator before anything that ends the loop. */
  lemma ParseErrorHasCause(tokens: seq<Token>, stopAtEmpty: bool)
    ensures var r := Scan(tokens, [], [], stopAtEmpty);
      r.Failure? ==> exists i :: (0 <= i < |tokens| && tokens[i] == Op(r.error.op) && r.error.op != ";"
                                  && forall j :: 0 <= j < i ==> !Blocking(tokens[j], stopAtEmpty))
  {
    ScanFailureCause(tokens, [], [], stopAtEmpty);
  }

  /** A ";" while the current statement is empty emits nothing. */
  lemma EmptySeparatorEmitsNothing(rest: seq<Token>, stopAtEmpty: bool)
    ensures Scan([Op(";")] + rest, [], [], stopAtEmpty) == Scan(rest, [], [], stopAtEmpty)
  {
    assert ([Op(";")] + rest)[1..] == rest;
  }

  lemma {:induction false} ScanModesAgree(tokens: seq<Token>, current: Statement, done: seq<Statement>)
    requires Str("") !in tokens
    ensures Scan(tokens, current, done, true) == Scan(tokens, current, done, false)
    decreases |tokens|
  {
    if |tokens| > 0 {
      assert tokens[0] in tokens;
      assert forall t | t in tokens[1..] :: t in tokens;
      match tokens[0]
      case Str(s) => ScanModesAgree(tokens[1..], current + [s], done);
      case Comment(_) =>
      case Op(o) =>
        if o == ";" { ScanModesAgree(tokens[1..], [], Close(done, current)); }
    }
  }

  /** A line without an empty string token builds the same statements under both loop conditions. */
  lemma ModesAgreeWithoutEmptyStrings(tokens: seq<Token>)
    requires Str("") !in tokens
    ensures BuildAsWritten(tokens) == BuildStatements(tokens)
  {
    ScanModesAgree(tokens, [], []);
  }

  /**
   * As written, an empty string token (the line `run ""; echo hi`) ends the loop, so the
   * second statement is lost; with the loop running to the end of the tokens it is kept.
   */
  lemma EmptyTokenTruncatesLine()
    ensures BuildAsWritten([Str("run"), Str(""), Op(";"), Str("echo"), Str("hi")]) == Success([["run"]])
    ensures BuildStatements([Str("run"), Str(""), Op(";"), Str("echo"), Str("hi")])
         == Success([["run", ""], ["echo", "hi"]])
  {
    var t := [Str("run"), Str(""), Op(";"), Str("echo"), Str("hi")];
    var none: seq<string> := [];
    var noStatements: seq<Statement> := [];
    assert none + ["run"] == ["run"] && none + ["echo"] == ["echo"];
    assert noStatements + [["run"]] == [["run"]] && noStatements + [["run", ""]] == [["run", ""]];
    assert t[1..] == [Str(""), Op(";"), Str("echo"), Str("hi")];
    assert t[2..] == [Op(";"), Str("echo"), Str("hi")];
    assert t[3..] == [Str("echo"), Str("hi")];
    assert t[4..] == [Str("hi")];
    assert Scan(t[4..], ["echo"], [["run", ""]], false) == Success([["run", ""], ["echo", "hi"]]) by {
      assert t[4..][1..] == [] && ["echo"] + ["hi"] == ["echo", "hi"];
      assert [["run", ""]] + [["echo", "hi"]] == [["run", ""], ["echo", "hi"]];
    }
    assert Scan(t[3..], [], [["run", ""]], false) == Scan(t[4..], ["echo"], [["run", ""]], false);
    assert Scan(t[2..], ["run", ""], [], false) == Scan(t[3..], [], [["run", ""]], false);
    assert ["run"] + [""] == ["run", ""];
    assert Scan(t[1..], ["run"], [], false) == Scan(t[2..], ["run", ""], [], false);
  }
}
