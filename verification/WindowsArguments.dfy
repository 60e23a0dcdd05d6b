// Quoting of Windows command-line arguments, and the rules by which the Microsoft C runtime
// splits a command line again ("Parsing C command-line arguments").
module WindowsArguments {
  import opened Options

  function Repeat(c: char, n: nat): (r: string)
    ensures |r| == n && forall i :: 0 <= i < n ==> r[i] == c
  {
    if n == 0 then "" else [c] + Repeat(c, n - 1)
  }

  lemma {:induction false} RepeatSum(c: char, m: nat, n: nat)
    ensures Repeat(c, m) + Repeat(c, n) == Repeat(c, m + n)
  {
    if m > 0 {
      RepeatSum(c, m - 1, n);
      assert Repeat(c, m) + Repeat(c, n) == [c] + (Repeat(c, m - 1) + Repeat(c, n));
    }
  }

  lemma PassSlash(n: nat, text: string)
    ensures Repeat('\\', n) + ("\\" + text) == Repeat('\\', n + 1) + text
  {
    RepeatSum('\\', n, 1);
    assert Repeat('\\', 1) == "\\";
    assert Repeat('\\', n) + ("\\" + text) == Repeat('\\', n) + "\\" + text;
  }

  // ---- Printing ----

  predicate Special(c: char) {
    c == ' ' || c == '\t' || c == '\n' || c == '\U{000B}' || c == '"'
  }

  predicate NeedsQuotes(value: string) {
    exists i :: 0 <= i < |value| && Special(value[i])
  }

  // What is still to be written of value[k..] when n backslashes are held back.
  function Rest(value: string, k: nat, n: nat): string
    requires k <= |value|
    decreases |value| - k
  {
    if k == |value| then Repeat('\\', 2 * n) + "\""
    else if value[k] == '\\' then Rest(value, k + 1, n + 1)
    else if value[k] == '"' then Repeat('\\', 2 * n + 1) + "\"" + Rest(value, k + 1, 0)
    else Repeat('\\', n) + [value[k]] + Rest(value, k + 1, 0)
  }

  function Quoted(value: string): string {
    if value == "" then "\"\""
    else if !NeedsQuotes(value) then value
    else "\"" + Rest(value, 0, 0)
  }

  lemma {:induction false} RestShape(value: string, k: nat, n: nat)
    requires k <= |value|
    ensures |Rest(value, k, n)| > |value| - k + n && Rest(value, k, n)[|Rest(value, k, n)| - 1] == '"'
    decreases |value| - k
  {
    if k < |value| {
      RestShape(value, k + 1, if value[k] == '\\' then n + 1 else 0);
    }
  }

  /** Only what a command line would break up is quoted: the empty string, and whatever holds a
      space, tab, newline, vertical tab or quote. */
  lemma QuotedOnlyIfNeeded(value: string)
    ensures Quoted(value) == value <==>
              && value != ""
              && forall i :: 0 <= i < |value| ==>
                   value[i] != ' ' && value[i] != '\t' && value[i] != '\n' && value[i] != '\U{000B}' && value[i] != '"'
    ensures Quoted(value) != value ==>
              |Quoted(value)| >= |value| + 2 && Quoted(value)[0] == '"' && Quoted(value)[|Quoted(value)| - 1] == '"'
  {
    if NeedsQuotes(value) {
      RestShape(value, 0, 0);
      var i :| 0 <= i < |value| && Special(value[i]);
    } else {
      assert forall i :: 0 <= i < |value| ==> !Special(value[i]);
    }
  }

  method QuoteWindowsArgument(value: string) returns (quoted: string)
    ensures quoted == Quoted(value)
  {
    if value == "" {
      return "\"\"";
    }
    var needsQuotes := false;
    var i := 0;
    while i < |value| && !needsQuotes
      invariant 0 <= i <= |value|
      invariant !needsQuotes ==> forall j :: 0 <= j < i ==> !Special(value[j])
      invariant needsQuotes ==> NeedsQuotes(value)
    {
      needsQuotes := Special(value[i]);
      i := i + 1;
    }
    if !needsQuotes {
      return value;
    }
    var out := "\"";
    var backslashes := 0;
    var k := 0;
    while k < |value|
      invariant 0 <= k <= |value|
      invariant out + Rest(value, k, backslashes) == Quoted(value)
    {
      ghost var before, held := out, backslashes;
      if value[k] == '\\' {
        backslashes := backslashes + 1;
      } else if value[k] == '"' {
        out := out + Repeat('\\', backslashes * 2 + 1) + "\"";
        backslashes := 0;
        assert before + Rest(value, k, held) == out + Rest(value, k + 1, 0);
      } else {
        out := out + Repeat('\\', backslashes);
        backslashes := 0;
        out := out + [value[k]];
        assert before + Rest(value, k, held) == out + Rest(value, k + 1, 0);
      }
      k := k + 1;
    }
    out := out + Repeat('\\', backslashes * 2);
    quoted := out + "\"";
  }

  // ---- Parsing ----

  predicate Blank(c: char) {
    c == ' ' || c == '\t'
  }

  datatype Piece = Piece(arg: string, rest: string)

  /** Reads one argument: arg is what was read so far, slashes the backslashes held back. An
      even number of backslashes before a quote is halved and the quote opens or closes; an odd
      number is halved and the quote is literal. Inside quotes a doubled quote is a literal
      quote, after which runtimes differ on whether the quotes are still open (`stay`). */
  function ReadArgument(s: string, quoted: bool, arg: string, slashes: nat, stay: bool): (p: Piece)
    ensures |p.rest| <= |s|
    ensures s != "" && (quoted || !Blank(s[0])) ==> |p.rest| < |s|
    decreases |s|
  {
    if s == "" || (Blank(s[0]) && !quoted) then Piece(arg + Repeat('\\', slashes), s)
    else if s[0] == '\\' then ReadArgument(s[1..], quoted, arg, slashes + 1, stay)
    else if s[0] != '"' then ReadArgument(s[1..], quoted, arg + Repeat('\\', slashes) + [s[0]], 0, stay)
    else if slashes % 2 == 1 then ReadArgument(s[1..], quoted, arg + Repeat('\\', slashes / 2) + "\"", 0, stay)
    else if quoted && |s| > 1 && s[1] == '"' then
      ReadArgument(s[2..], stay, arg + Repeat('\\', slashes / 2) + "\"", 0, stay)
    else ReadArgument(s[1..], !quoted, arg + Repeat('\\', slashes / 2), 0, stay)
  }

  function Split(s: string, stay: bool): seq<string>
    decreases |s|
  {
    if s == "" then []
    else if Blank(s[0]) then Split(s[1..], stay)
    else
      var p := ReadArgument(s, false, "", 0, stay);
      [p.arg] + Split(p.rest, stay)
  }

  // ---- Parsing undoes quoting ----

  lemma {:induction false} ReadSlashes(n: nat, s: string, quoted: bool, arg: string, slashes: nat, stay: bool)
    ensures ReadArgument(Repeat('\\', n) + s, quoted, arg, slashes, stay)
         == ReadArgument(s, quoted, arg, slashes + n, stay)
  {
    if n == 0 {
      assert Repeat('\\', 0) + s == s;
    } else {
      var t := Repeat('\\', n) + s;
      assert t[0] == '\\' && t[1..] == Repeat('\\', n - 1) + s;
      ReadSlashes(n - 1, s, quoted, arg, slashes + 1, stay);
    }
  }

  ghost predicate Ends(s: string) {
    s == "" || Blank(s[0])
  }

  // A literal quote, written as 2n + 1 backslashes and the quote.
  lemma ReadEscapedQuote(n: nat, s: string, arg: string, stay: bool)
    ensures ReadArgument(Repeat('\\', 2 * n + 1) + "\"" + s, true, arg, 0, stay)
         == ReadArgument(s, true, arg + Repeat('\\', n) + "\"", 0, stay)
  {
    assert Repeat('\\', 2 * n + 1) + "\"" + s == Repeat('\\', 2 * n + 1) + ("\"" + s);
    ReadSlashes(2 * n + 1, "\"" + s, true, arg, 0, stay);
    assert ("\"" + s)[1..] == s;
  }

  lemma ReadOrdinary(n: nat, c: char, s: string, arg: string, stay: bool)
    requires c != '\\' && c != '"'
    ensures ReadArgument(Repeat('\\', n) + [c] + s, true, arg, 0, stay)
         == ReadArgument(s, true, arg + Repeat('\\', n) + [c], 0, stay)
  {
    assert Repeat('\\', n) + [c] + s == Repeat('\\', n) + ([c] + s);
    ReadSlashes(n, [c] + s, true, arg, 0, stay);
    assert ([c] + s)[1..] == s;
  }

  // The closing quote, after 2n backslashes.
  lemma ReadClosing(n: nat, tail: string, arg: string, stay: bool)
    requires Ends(tail)
    ensures ReadArgument(Repeat('\\', 2 * n) + "\"" + tail, true, arg, 0, stay) == Piece(arg + Repeat('\\', n), tail)
  {
    assert Repeat('\\', 2 * n) + "\"" + tail == Repeat('\\', 2 * n) + ("\"" + tail);
    ReadSlashes(2 * n, "\"" + tail, true, arg, 0, stay);
    assert ("\"" + tail)[1..] == tail;
    var read := arg + Repeat('\\', n);
    assert ReadArgument(tail, false, read, 0, stay) == Piece(read + Repeat('\\', 0), tail);
    assert read + Repeat('\\', 0) == read;
  }

  lemma Regroup(a: string, b: string, c: string, d: string)
    ensures a + b + c + d == a + b + (c + d)
  {
  }

  lemma {:induction false} ReadRest(value: string, k: nat, n: nat, arg: string, tail: string, stay: bool)
    requires k <= |value| && arg + Repeat('\\', n) == value[..k] && Ends(tail)
    ensures ReadArgument(Rest(value, k, n) + tail, true, arg, 0, stay) == Piece(value, tail)
    decreases |value| - k
  {
    if k == |value| {
      ReadClosing(n, tail, arg, stay);
      assert value[..k] == value;
      return;
    }
    var read := value[..k + 1];
    assert read == value[..k] + [value[k]];
    if value[k] == '\\' {
      PassSlash(n, "");
      assert arg + Repeat('\\', n + 1) == read;
      ReadRest(value, k + 1, n + 1, arg, tail, stay);
    } else {
      var more := Rest(value, k + 1, 0);
      assert read + Repeat('\\', 0) == read;
      if value[k] == '"' {
        Regroup(Repeat('\\', 2 * n + 1), "\"", more, tail);
        ReadEscapedQuote(n, more + tail, arg, stay);
      } else {
        Regroup(Repeat('\\', n), [value[k]], more, tail);
        ReadOrdinary(n, value[k], more + tail, arg, stay);
      }
      ReadRest(value, k + 1, 0, read, tail, stay);
    }
  }

  lemma {:induction false} ReadPlain(value: string, arg: string, slashes: nat, tail: string, stay: bool)
    requires !NeedsQuotes(value) && Ends(tail)
    ensures ReadArgument(value + tail, false, arg, slashes, stay) == Piece(arg + Repeat('\\', slashes) + value, tail)
  {
    if value == "" {
      assert value + tail == tail;
      assert arg + Repeat('\\', slashes) + value == arg + Repeat('\\', slashes);
      return;
    }
    var c, more := value[0], value[1..];
    assert (value + tail)[1..] == more + tail;
    assert value == [c] + more;
    assert !Special(value[0]);
    assert !NeedsQuotes(more) by {
      forall i | 0 <= i < |more| ensures !Special(more[i]) { assert more[i] == value[i + 1]; }
    }
    if c == '\\' {
      RepeatSum('\\', slashes, 1);
      assert Repeat('\\', 1) == "\\";
      ReadPlain(more, arg, slashes + 1, tail, stay);
      assert arg + Repeat('\\', slashes + 1) + more == arg + Repeat('\\', slashes) + value;
    } else {
      ReadPlain(more, arg + Repeat('\\', slashes) + [c], 0, tail, stay);
      assert arg + Repeat('\\', slashes) + [c] + Repeat('\\', 0) + more == arg + Repeat('\\', slashes) + value;
    }
  }

  lemma ReadOpening(rest: string, tail: string, stay: bool)
    ensures ReadArgument("\"" + rest + tail, false, "", 0, stay) == ReadArgument(rest + tail, true, "", 0, stay)
  {
    var s := "\"" + rest + tail;
    assert s[0] == '"' && s[1..] == rest + tail;
    assert "" + Repeat('\\', 0) == "";
  }

  lemma ReadWhole(value: string, tail: string, stay: bool)
    requires Ends(tail)
    ensures ReadArgument(Rest(value, 0, 0) + tail, true, "", 0, stay) == Piece(value, tail)
  {
    assert "" + Repeat('\\', 0) == value[..0];
    ReadRest(value, 0, 0, "", tail, stay);
  }

  // One quoted argument, with the line's end or a blank after it, is read back as it was.
  lemma ReadQuoted(value: string, tail: string, stay: bool)
    requires Ends(tail)
    ensures Quoted(value) != "" && !Blank(Quoted(value)[0])
    ensures ReadArgument(Quoted(value) + tail, false, "", 0, stay) == Piece(value, tail)
  {
    if value != "" && !NeedsQuotes(value) {
      assert !Special(value[0]);
      ReadPlain(value, "", 0, tail, stay);
      assert "" + Repeat('\\', 0) + value == value;
    } else {
      assert value == "" ==> Rest(value, 0, 0) == "\"";
      assert Quoted(value) == "\"" + Rest(value, 0, 0);
      ReadOpening(Rest(value, 0, 0), tail, stay);
      ReadWhole(value, tail, stay);
    }
  }

  function CommandLine(args: seq<string>): string {
    if args == [] then ""
    else if |args| == 1 then Quoted(args[0])
    else Quoted(args[0]) + " " + CommandLine(args[1..])
  }

  /** Splitting the space-joined quoted strings returns the strings, whatever they are, under
      both readings of a doubled quote. */
  lemma {:induction false} SplitUndoesQuoting(args: seq<string>, stay: bool)
    ensures Split(CommandLine(args), stay) == args
  {
    if args == [] {
      return;
    }
    var tail := if |args| == 1 then "" else " " + CommandLine(args[1..]);
    assert CommandLine(args) == Quoted(args[0]) + tail;
    ReadQuoted(args[0], tail, stay);
    if |args| == 1 {
      assert Split(tail, stay) == [];
    } else {
      SplitUndoesQuoting(args[1..], stay);
      assert tail[1..] == CommandLine(args[1..]);
      assert Split(tail, stay) == args[1..];
    }
    assert args == [args[0]] + args[1..];
  }

  // ---- The program name ----

  /** The first word of a command line names the program and follows simpler rules: quotes keep
      blanks and are dropped, and backslashes escape nothing. */
  function ReadProgram(s: string, quoted: bool, name: string): Piece
    decreases |s|
  {
    if s == "" || (Blank(s[0]) && !quoted) then Piece(name, s)
    else if s[0] == '"' then ReadProgram(s[1..], !quoted, name)
    else ReadProgram(s[1..], quoted, name + [s[0]])
  }

  function Arguments(line: string, stay: bool): seq<string> {
    var p := ReadProgram(line, false, "");
    [p.arg] + Split(p.rest, stay)
  }

  predicate Reliable(executable: string) {
    && '"' !in executable
    && !(NeedsQuotes(executable) && executable[|executable| - 1] == '\\')
  }

  lemma {:induction false} ProgramHasNoQuote(s: string, quoted: bool, name: string)
    requires '"' !in name
    ensures '"' !in ReadProgram(s, quoted, name).arg
    decreases |s|
  {
    if s == "" || (Blank(s[0]) && !quoted) {
    } else if s[0] == '"' {
      ProgramHasNoQuote(s[1..], !quoted, name);
    } else {
      ProgramHasNoQuote(s[1..], quoted, name + [s[0]]);
    }
  }

  lemma {:induction false} ReadProgramText(text: string, s: string, quoted: bool, name: string)
    requires '"' !in text && (quoted || forall i :: 0 <= i < |text| ==> !Blank(text[i]))
    ensures ReadProgram(text + s, quoted, name) == ReadProgram(s, quoted, name + text)
  {
    if text == "" {
      assert text + s == s && name + text == name;
    } else {
      assert (text + s)[1..] == text[1..] + s;
      ReadProgramText(text[1..], s, quoted, name + [text[0]]);
      assert name + [text[0]] + text[1..] == name + text;
    }
  }

  // Backslashes at the end of value[..k].
  function Trailing(value: string, k: nat): (n: nat)
    requires k <= |value|
    ensures n <= k && value[k - n..k] == Repeat('\\', n)
  {
    if k == 0 || value[k - 1] != '\\' then 0
    else
      RepeatSum('\\', Trailing(value, k - 1), 1);
      assert Repeat('\\', 1) == "\\";
      var m := Trailing(value, k - 1);
      assert value[k - 1 - m..k] == value[k - 1 - m..k - 1] + [value[k - 1]];
      m + 1
  }

  // The backslashes at the end of the value.
  function Ending(value: string): string {
    Repeat('\\', Trailing(value, |value|))
  }

  lemma Reassociate(a: string, b: string, c: string)
    ensures a + (b + c) == a + b + c
  {
  }

  // One more character of a value without quotes.
  lemma RestNext(value: string, k: nat, more: string)
    requires k < |value| && value[k] != '"'
    requires Rest(value, k + 1, Trailing(value, k + 1)) == Repeat('\\', Trailing(value, k + 1)) + more
    ensures Rest(value, k, Trailing(value, k)) == Repeat('\\', Trailing(value, k)) + ([value[k]] + more)
  {
    var n := Trailing(value, k);
    if value[k] == '\\' {
      PassSlash(n, more);
    } else {
      assert Repeat('\\', 0) + more == more;
      Reassociate(Repeat('\\', n), [value[k]], more);
    }
  }

  lemma RestEnd(value: string, close: string)
    requires close == Ending(value) + "\""
    ensures Rest(value, |value|, Trailing(value, |value|)) == Ending(value) + close
  {
    var n := Trailing(value, |value|);
    RepeatSum('\\', n, n);
    RestAtEnd(value, n);
    Doubled(Ending(value), Repeat('\\', 2 * n), "\"");
  }

  lemma RestAtEnd(value: string, n: nat)
    ensures Rest(value, |value|, n) == Repeat('\\', 2 * n) + "\""
  {
  }

  lemma Doubled(run: string, both: string, quote: string)
    requires both == run + run
    ensures both + quote == run + (run + quote)
  {
  }

  lemma {:induction false} RestWithoutQuotes(value: string, k: nat, close: string)
    requires k <= |value| && '"' !in value && close == Ending(value) + "\""
    ensures Rest(value, k, Trailing(value, k)) == Repeat('\\', Trailing(value, k)) + (value[k..] + close)
    decreases |value| - k
  {
    if k == |value| {
      RestEnd(value, close);
      assert value[k..] + close == close;
    } else {
      var more := value[k + 1..] + close;
      RestWithoutQuotes(value, k + 1, close);
      RestNext(value, k, more);
      assert value[k..] + close == [value[k]] + more;
    }
  }

  lemma QuotedWithoutQuotes(value: string)
    requires '"' !in value && NeedsQuotes(value)
    ensures Quoted(value) == "\"" + (value + Ending(value) + "\"")
  {
    var close := Ending(value) + "\"";
    RestWithoutQuotes(value, 0, close);
    assert value[0..] == value;
    assert "" + (value + close) == value + close;
    Reassociate(value, Ending(value), "\"");
  }

  // Read as a program name, a quoted path without quotes inside gains its trailing backslashes.
  lemma QuotedProgram(executable: string, tail: string)
    requires Ends(tail) && '"' !in executable && NeedsQuotes(executable)
    ensures ReadProgram(Quoted(executable) + tail, false, "") == Piece(executable + Ending(executable), tail)
  {
    var text, close := executable + Ending(executable), "\"" + tail;
    QuotedWithoutQuotes(executable);
    assert (Quoted(executable) + tail)[1..] == text + close;
    ReadProgramText(text, close, true, "");
    assert "" + text == text;
    assert close[1..] == tail;
    assert ReadProgram(tail, false, text) == Piece(text, tail);
  }

  lemma EmptyProgram(tail: string)
    requires Ends(tail)
    ensures ReadProgram("\"\"" + tail, false, "") == Piece("", tail)
  {
    var s, t := "\"\"" + tail, "\"" + tail;
    assert s[0] == '"' && s[1..] == t;
    assert t[0] == '"' && t[1..] == tail;
    assert ReadProgram(tail, false, "") == Piece("", tail);
  }

  lemma PlainProgram(executable: string, tail: string)
    requires Ends(tail) && '"' !in executable && !NeedsQuotes(executable)
    ensures ReadProgram(executable + tail, false, "") == Piece(executable, tail)
  {
    forall i | 0 <= i < |executable| ensures !Blank(executable[i]) {
      assert !Special(executable[i]);
    }
    ReadProgramText(executable, tail, false, "");
    assert "" + executable == executable;
  }

  lemma ReliableReadsBack(executable: string, tail: string)
    requires Ends(tail) && Reliable(executable)
    ensures ReadProgram(Quoted(executable) + tail, false, "") == Piece(executable, tail)
  {
    if NeedsQuotes(executable) {
      QuotedProgram(executable, tail);
      assert executable + Ending(executable) == executable;
    } else if executable == "" {
      EmptyProgram(tail);
    } else {
      PlainProgram(executable, tail);
    }
  }

  // An unreliable path never comes back as the program name.
  lemma UnreliableReadsOtherwise(executable: string, tail: string)
    requires Ends(tail) && !Reliable(executable)
    ensures ReadProgram(Quoted(executable) + tail, false, "").arg != executable
  {
    if '"' in executable {
      ProgramHasNoQuote(Quoted(executable) + tail, false, "");
    } else {
      QuotedProgram(executable, tail);
      assert |executable + Ending(executable)| > |executable|;
    }
  }

  // ---- Starting with Windows ----

  const AUTOSTART := "--autostart"

  function Command(executable: string): string {
    Quoted(executable) + " " + AUTOSTART
  }

  lemma AutostartIsPlain()
    ensures Quoted(AUTOSTART) == AUTOSTART
  {
    PlainPair("--auto", "start");
    assert "--auto" + "start" == AUTOSTART;
  }

  lemma PlainPair(a: string, b: string)
    requires !NeedsQuotes(a) && !NeedsQuotes(b)
    ensures !NeedsQuotes(a + b)
  {
  }

  lemma AutostartSplits(tail: string, stay: bool)
    requires tail == " " + AUTOSTART
    ensures Split(tail, stay) == [AUTOSTART]
  {
    AutostartIsPlain();
    var words := [AUTOSTART];
    SplitUndoesQuoting(words, stay);
    assert tail[1..] == CommandLine(words);
  }

  // Both words read under the argument rules.
  lemma CommandSplits(executable: string, stay: bool)
    ensures Split(Command(executable), stay) == [executable, AUTOSTART]
  {
    var words := [executable, AUTOSTART];
    AutostartIsPlain();
    SplitUndoesQuoting(words, stay);
    assert words[1..] == [AUTOSTART];
    assert CommandLine(words) == Quoted(executable) + " " + CommandLine([AUTOSTART]);
  }

  // The first word read under the program-name rules, as at a real start.
  lemma CommandStartsIffReliable(executable: string, stay: bool)
    ensures Arguments(Command(executable), stay) == [executable, AUTOSTART] <==> Reliable(executable)
  {
    var tail := " " + AUTOSTART;
    assert Command(executable) == Quoted(executable) + tail;
    if Reliable(executable) {
      ReliableReadsBack(executable, tail);
      AutostartSplits(tail, stay);
    } else {
      UnreliableReadsOtherwise(executable, tail);
      assert Arguments(Command(executable), stay)[0] != executable;
    }
  }

  // Only the last backslashes of a path that needs quotes are misread: the name gains a copy.
  lemma UnreliablePathExample(stay: bool)
    ensures Arguments(Command(" \\"), stay)[0] == " \\\\"
  {
    var path := " \\";
    assert Special(path[0]);
    var tail := " " + AUTOSTART;
    assert Command(path) == Quoted(path) + tail;
    QuotedProgram(path, tail);
    assert Trailing(path, 1) == 0 && Trailing(path, 2) == 1;
    assert Ending(path) == "\\";
  }

  datatype State = Disabled | Enabled | Stale

  datatype Outcome = Done | Conflict | Failed

  function StateOf(store: Option<string>, executable: string): State {
    if store.None? then Disabled
    else if store.value == Command(executable) then Enabled
    else Stale
  }

  /** The Run value of the registry and the manager's operations on it. `readable` and `writes` say
      whether the registry answers. */
  class AutostartManager {
    var store: Option<string>
    const executable: string

    constructor (executable: string, store: Option<string>)
      ensures this.executable == executable && this.store == store
    {
      this.executable := executable;
      this.store := store;
    }

    // Never overwrites a value it did not write itself.
    method Enable(readable: bool, writes: bool) returns (outcome: Outcome)
      modifies this
      ensures outcome == Done ==> StateOf(store, executable) == Enabled
      ensures outcome == Conflict <==> readable && old(StateOf(store, executable)) == Stale
      ensures outcome == Failed <==> !readable || (old(store).None? && !writes)
      ensures old(store).Some? || outcome != Done ==> store == old(store)
    {
      if !readable { return Failed; }
      match StateOf(store, executable)
      case Enabled => return Done;
      case Stale => return Conflict;
      case Disabled =>
        if !writes { return Failed; }
        store := Some(Command(executable));
        return Done;
    }

    method Repair(writes: bool) returns (outcome: Outcome)
      modifies this
      ensures outcome == if writes then Done else Failed
      ensures outcome == Done ==> StateOf(store, executable) == Enabled
      ensures outcome == Failed ==> store == old(store)
    {
      if !writes { return Failed; }
      store := Some(Command(executable));
      return Done;
    }

    method Disable(readable: bool, writes: bool) returns (outcome: Outcome)
      modifies this
      ensures outcome == if readable && (old(store).None? || writes) then Done else Failed
      ensures outcome == Done ==> StateOf(store, executable) == Disabled
      ensures outcome == Failed ==> store == old(store)
    {
      if !readable { return Failed; }
      if store.None? { return Done; }
      if !writes { return Failed; }
      store := None;
      return Done;
    }
  }

  // None: refused arguments.
  function ParseLaunchArguments(args: seq<string>): Option<bool> {
    if |args| == 0 then Some(false)
    else if |args| == 1 && args[0] == AUTOSTART then Some(true)
    else None
  }

  // A Run value that counts as enabled starts the program in autostart mode, exactly when the
  // path can be read back.
  lemma EnabledStartsInAutostart(store: Option<string>, executable: string, stay: bool)
    requires StateOf(store, executable) == Enabled
    ensures var args := Arguments(store.value, stay);
            args[0] == executable && ParseLaunchArguments(args[1..]) == Some(true) <==> Reliable(executable)
  {
    CommandStartsIffReliable(executable, stay);
    if Reliable(executable) {
      assert Arguments(store.value, stay)[1..] == [AUTOSTART];
    } else {
      UnreliableReadsOtherwise(executable, " " + AUTOSTART);
      assert Command(executable) == Quoted(executable) + (" " + AUTOSTART);
    }
  }
}
