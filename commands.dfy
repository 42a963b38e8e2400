/**
 * Turning a command line into a command (command/CommandFactory.java)
 * and the alias rewrites applied to a tokenized line
 * (command/CommandExecutor.java).
 */
module Commands {
  import opened Base

  // ---------------------------------------------------------------------
  // Tokenizing

  /** The characters Java's regex class \s matches. */
  predicate IsRegexSpace(c: char)
  {
    c == ' ' || c == '\t' || c == '\n' || c == '\U{B}' || c == '\U{C}' || c == '\r'
  }

  /** A character that can be part of an unquoted token. */
  predicate IsWordChar(c: char)
  {
    !IsRegexSpace(c) && c != '"' && c != '\''
  }

  /** A token with how it was written: a bare word or the inside of a quoted run. */
  datatype Token = Bare(text: string) | Quoted(text: string, quote: char)

  /** The length of the run of word characters at the start of s. */
  function RunLength(s: string): (n: nat)
    ensures n <= |s|
  {
    if |s| > 0 && IsWordChar(s[0]) then 1 + RunLength(s[1..]) else 0
  }

  /** The run is made of word characters, and what follows it is not one. */
  lemma {:induction false} RunLengthMeaning(s: string)
    ensures forall i :: 0 <= i < RunLength(s) ==> IsWordChar(s[i])
    ensures RunLength(s) < |s| ==> !IsWordChar(s[RunLength(s)])
  {
    if |s| > 0 && IsWordChar(s[0]) {
      RunLengthMeaning(s[1..]);
      assert forall i :: 1 <= i < |s| ==> s[i] == s[1..][i - 1];
    }
  }

  /** The first index of c in s. */
  function Find(s: string, c: char): (r: Option<nat>)
    ensures r.Some? ==> r.value < |s|
  {
    if |s| == 0 then None
    else if s[0] == c then Some(0)
    else match Find(s[1..], c)
      case None => None
      case Some(j) => Some(j + 1)
  }

  /** Find gives the first occurrence, and None only when there is none. */
  lemma {:induction false} FindMeaning(s: string, c: char)
    ensures Find(s, c).Some? ==> s[Find(s, c).value] == c && c !in s[..Find(s, c).value]
    ensures Find(s, c).None? ==> c !in s
  {
    if |s| > 0 && s[0] != c {
      FindMeaning(s[1..], c);
      if Find(s[1..], c).Some? {
        var j := Find(s[1..], c).value;
        assert s[..j + 1] == [s[0]] + s[1..][..j];
      } else {
        assert s == [s[0]] + s[1..];
      }
    }
  }

  lemma {:induction false} FindAt(s: string, c: char, j: nat)
    requires j < |s| && s[j] == c && c !in s[..j]
    ensures Find(s, c) == Some(j)
  {
    if j > 0 {
      assert s[0] in s[..j];
      assert s[1..][..j - 1] == s[1..j];
      assert forall x :: x in s[1..j] ==> x in s[..j];
      FindAt(s[1..], c, j - 1);
    }
  }

  /**
   * The matches of the pattern `[^\s"']+|"([^"]*)"|'([^']*)'` found left
   * to right: a run of word characters, or a quote up to the next equal
   * quote. Whitespace and a quote that is never closed start no match.
   */
  function Scan(s: string): seq<Token>
    decreases |s|, 1
  {
    if |s| == 0 then []
    else if IsRegexSpace(s[0]) then Scan(s[1..])
    else if s[0] == '"' || s[0] == '\'' then ScanQuote(s[0], s[1..])
    else
      var n := RunLength(s);
      [Bare(s[..n])] + Scan(s[n..])
  }

  /** The matches after an opening quote c, where t is what follows it. */
  function ScanQuote(c: char, t: string): seq<Token>
    decreases |t| + 1, 0
  {
    match Find(t, c)
    case None => Scan(t)
    case Some(j) => [Quoted(t[..j], c)] + Scan(t[j + 1..])
  }

  /** A bare token is a non-empty run of word characters; a quoted token holds no quote of its own kind. */
  predicate TokenShape(t: Token)
  {
    match t
    case Bare(text) => |text| > 0 && forall i :: 0 <= i < |text| ==> IsWordChar(text[i])
    case Quoted(text, quote) => quote in {'"', '\''} && quote !in text
  }

  predicate AllShaped(ts: seq<Token>)
  {
    forall k :: 0 <= k < |ts| ==> TokenShape(ts[k])
  }

  lemma ConsShaped(t: Token, ts: seq<Token>)
    requires TokenShape(t) && AllShaped(ts)
    ensures AllShaped([t] + ts)
  {
    assert forall k :: 1 <= k < |ts| + 1 ==> ([t] + ts)[k] == ts[k - 1];
  }

  /** Every token the pattern matches has the shape its alternative allows. */
  lemma {:induction false} ScanTokens(s: string)
    ensures AllShaped(Scan(s))
    decreases |s|
  {
    if |s| == 0 {
    } else if IsRegexSpace(s[0]) {
      ScanTokens(s[1..]);
    } else if s[0] == '"' || s[0] == '\'' {
      var c, t := s[0], s[1..];
      ScanAtQuote(s);
      FindMeaning(t, c);
      match Find(t, c)
      case None => ScanTokens(t);
      case Some(j) =>
        ScanTokens(t[j + 1..]);
        ConsShaped(Quoted(t[..j], c), Scan(t[j + 1..]));
    } else {
      var n := RunLength(s);
      RunLengthMeaning(s);
      ScanTokens(s[n..]);
      ConsShaped(Bare(s[..n]), Scan(s[n..]));
    }
  }

  function Texts(ts: seq<Token>): seq<string>
  {
    if |ts| == 0 then [] else [ts[0].text] + Texts(ts[1..])
  }

  lemma {:induction false} TextsAppend(a: seq<Token>, b: seq<Token>)
    ensures Texts(a + b) == Texts(a) + Texts(b)
  {
    if |a| > 0 {
      assert (a + b)[1..] == a[1..] + b;
      TextsAppend(a[1..], b);
    } else {
      assert a + b == b;
    }
  }

  lemma {:induction false} TextsMeaning(ts: seq<Token>)
    ensures |Texts(ts)| == |ts| && forall k :: 0 <= k < |ts| ==> Texts(ts)[k] == ts[k].text
  {
    if |ts| > 0 {
      TextsMeaning(ts[1..]);
    }
  }

  /** Whitespace, or a quote never closed, starts no match. */
  lemma ScanSkip(s: string)
    requires |s| > 0
    requires IsRegexSpace(s[0]) || ((s[0] == '"' || s[0] == '\'') && Find(s[1..], s[0]).None?)
    ensures Scan(s) == Scan(s[1..])
  {
  }

  lemma TextsOne(t: Token)
    ensures Texts([t]) == [t.text]
  {
    assert [t][1..] == [];
  }

  /** A closed quote is one token: what lies between the quotes. */
  lemma ScanQuoted(s: string, j: nat)
    requires |s| > 0 && (s[0] == '"' || s[0] == '\'') && Find(s[1..], s[0]) == Some(j)
    ensures j + 2 <= |s|
    ensures Texts(Scan(s)) == [s[1..][..j]] + Texts(Scan(s[j + 2..]))
  {
    var q := Quoted(s[1..][..j], s[0]);
    var after := Scan(s[j + 2..]);
    ScanQuotedUnfold(s, j);
    TextsAppend([q], after);
    TextsOne(q);
  }

  lemma ScanQuotedUnfold(s: string, j: nat)
    requires |s| > 0 && (s[0] == '"' || s[0] == '\'') && Find(s[1..], s[0]) == Some(j)
    ensures j + 2 <= |s|
    ensures Scan(s) == [Quoted(s[1..][..j], s[0])] + Scan(s[j + 2..])
  {
    ScanAtQuote(s);
    QuoteFound(s, j);
  }

  lemma ScanAtQuote(s: string)
    requires |s| > 0 && (s[0] == '"' || s[0] == '\'')
    ensures Scan(s) == ScanQuote(s[0], s[1..])
  {
    assert !IsRegexSpace(s[0]);
  }

  lemma QuoteFound(s: string, j: nat)
    requires |s| > 0 && Find(s[1..], s[0]) == Some(j)
    ensures j + 2 <= |s|
    ensures ScanQuote(s[0], s[1..]) == [Quoted(s[1..][..j], s[0])] + Scan(s[j + 2..])
  {
    assert s[1..][j + 1..] == s[j + 2..];
  }

  /** A word character starts a bare token: the longest run of word characters. */
  lemma ScanBare(s: string)
    requires |s| > 0 && IsWordChar(s[0])
    ensures Texts(Scan(s)) == [s[..RunLength(s)]] + Texts(Scan(s[RunLength(s)..]))
  {
    var b := Bare(s[..RunLength(s)]);
    var after := Scan(s[RunLength(s)..]);
    assert Scan(s) == [b] + after;
    TextsAppend([b], after);
    TextsOne(b);
  }

  /** What one step of the match search promises: the token at p, if any, then the rest from next. */
  ghost predicate MatchStep(line: string, p: nat, token: Option<string>, next: nat)
  {
    p < next <= |line|
    && (token.None? ==> Texts(Scan(line[p..])) == Texts(Scan(line[next..])))
    && (token.Some? ==> Texts(Scan(line[p..])) == [token.value] + Texts(Scan(line[next..])))
  }

  lemma SkipAt(line: string, p: nat)
    requires p < |line|
    requires IsRegexSpace(line[p]) || ((line[p] == '"' || line[p] == '\'') && Find(line[p + 1..], line[p]).None?)
    ensures MatchStep(line, p, None, p + 1)
  {
    var rest := line[p..];
    assert rest[1..] == line[p + 1..];
    ScanSkip(rest);
  }

  lemma QuotedAt(line: string, p: nat, j: nat)
    requires p < |line| && (line[p] == '"' || line[p] == '\'') && Find(line[p + 1..], line[p]) == Some(j)
    ensures p + j + 2 <= |line|
    ensures MatchStep(line, p, Some(line[p + 1..][..j]), p + j + 2)
  {
    var rest := line[p..];
    assert rest[1..] == line[p + 1..];
    ScanQuoted(rest, j);
    assert rest[j + 2..] == line[p + j + 2..];
  }

  lemma BareAt(line: string, p: nat, n: nat)
    requires p < |line| && IsWordChar(line[p]) && n == RunLength(line[p..])
    ensures p + n <= |line|
    ensures MatchStep(line, p, Some(line[p..p + n]), p + n)
  {
    var rest := line[p..];
    ScanBare(rest);
    assert rest[n..] == line[p + n..];
    assert line[p..p + n] == rest[..n];
  }

  /** Matcher.find at an opening quote: the quoted run up to the next equal quote, or nothing when none follows. */
  method MatchQuoted(line: string, p: nat) returns (token: Option<string>, next: nat)
    requires p < |line| && (line[p] == '"' || line[p] == '\'')
    ensures MatchStep(line, p, token, next)
  {
    var c := line[p];
    var tail := line[p + 1..];
    var close := Find(tail, c);
    if close.None? {
      SkipAt(line, p);
      return None, p + 1;
    }
    QuotedAt(line, p, close.value);
    return Some(tail[..close.value]), p + close.value + 2;
  }

  /** One step of Matcher.find from position p: the token found, if any, and where the search resumes. */
  method NextMatch(line: string, p: nat) returns (token: Option<string>, next: nat)
    requires p < |line|
    ensures MatchStep(line, p, token, next)
  {
    var c := line[p];
    if IsRegexSpace(c) {
      SkipAt(line, p);
      return None, p + 1;
    } else if c == '"' || c == '\'' {
      token, next := MatchQuoted(line, p);
    } else {
      var n := RunLength(line[p..]);
      BareAt(line, p, n);
      return Some(line[p..p + n]), p + n;
    }
  }

  lemma AppendStep(done: seq<string>, found: seq<string>, after: seq<string>, before: seq<string>, total: seq<string>)
    requires done + before == total && before == found + after
    ensures (done + found) + after == total
  {
  }

  /** CommandFactory.tokenize: the loop over the pattern's matches. */
  method Tokenize(line: string) returns (tokens: seq<string>)
    ensures tokens == Texts(Scan(line))
  {
    tokens := [];
    var p := 0;
    assert line[0..] == line;
    while p < |line|
      invariant 0 <= p <= |line|
      invariant tokens + Texts(Scan(line[p..])) == Texts(Scan(line))
    {
      var token, next := NextMatch(line, p);
      ghost var after := Texts(Scan(line[next..]));
      if token.Some? {
        AppendStep(tokens, [token.value], after, Texts(Scan(line[p..])), Texts(Scan(line)));
        tokens := tokens + [token.value];
      }
      p := next;
    }
    assert line[p..] == [];
  }

  /** A line with no word character and no quote gives no tokens. */
  lemma {:induction false} BlankScan(s: string)
    requires forall i :: 0 <= i < |s| ==> IsRegexSpace(s[i])
    ensures Scan(s) == []
    decreases |s|
  {
    if |s| > 0 {
      BlankScan(s[1..]);
    }
  }

  /** How a word is written so that it reads back as itself: bare if it can be, else in double quotes. */
  function Quote(w: string): string
  {
    if |w| > 0 && forall i :: 0 <= i < |w| ==> IsWordChar(w[i]) then w else "\"" + w + "\""
  }

  /** Words written one after another, separated by single spaces. */
  function Unwords(ws: seq<string>): string
  {
    if |ws| == 0 then "" else if |ws| == 1 then Quote(ws[0]) else Quote(ws[0]) + " " + Unwords(ws[1..])
  }

  lemma RunOfWord(w: string, rest: string)
    requires |w| > 0 && forall i :: 0 <= i < |w| ==> IsWordChar(w[i])
    requires |rest| == 0 || !IsWordChar(rest[0])
    ensures RunLength(w + rest) == |w|
    decreases |w|
  {
    if |w| > 1 {
      assert (w + rest)[1..] == w[1..] + rest;
      RunOfWord(w[1..], rest);
    }
  }

  lemma ScanBareWord(w: string, rest: string)
    requires |w| > 0 && forall i :: 0 <= i < |w| ==> IsWordChar(w[i])
    requires |rest| == 0 || IsRegexSpace(rest[0])
    ensures Texts(Scan(w + rest)) == [w] + Texts(Scan(rest))
  {
    var s := w + rest;
    RunOfWord(w, rest);
    assert s[0] == w[0];
    assert s[..|w|] == w && s[|w|..] == rest;
    ScanBare(s);
  }

  lemma ScanQuotedWord(w: string, rest: string)
    requires '"' !in w
    ensures Texts(Scan("\"" + w + "\"" + rest)) == [w] + Texts(Scan(rest))
  {
    var s := "\"" + w + "\"" + rest;
    assert s[0] == '"';
    assert s[1..] == w + "\"" + rest;
    assert (w + "\"" + rest)[|w|] == '"';
    assert s[1..][..|w|] == w;
    FindAt(s[1..], '"', |w|);
    assert s[|w| + 2..] == rest;
    ScanQuoted(s, |w|);
  }

  /** One quoted or bare word at the front of a line is read as that word. */
  lemma ScanWord(w: string, rest: string)
    requires '"' !in w
    requires |rest| == 0 || IsRegexSpace(rest[0])
    ensures Texts(Scan(Quote(w) + rest)) == [w] + Texts(Scan(rest))
  {
    if |w| > 0 && forall i :: 0 <= i < |w| ==> IsWordChar(w[i]) {
      ScanBareWord(w, rest);
    } else {
      ScanQuotedWord(w, rest);
    }
  }

  /** Tokenizing words written with Unwords gives the words back. */
  lemma {:induction false} TokenizeUnwords(ws: seq<string>)
    requires forall k :: 0 <= k < |ws| ==> '"' !in ws[k]
    ensures Texts(Scan(Unwords(ws))) == ws
    decreases |ws|
  {
    if |ws| == 1 {
      ScanWord(ws[0], "");
      assert Quote(ws[0]) + "" == Quote(ws[0]);
    } else if |ws| > 1 {
      TokenizeUnwords(ws[1..]);
      ScanWord(ws[0], " " + Unwords(ws[1..]));
      assert Quote(ws[0]) + " " + Unwords(ws[1..]) == Quote(ws[0]) + (" " + Unwords(ws[1..]));
      assert (" " + Unwords(ws[1..]))[1..] == Unwords(ws[1..]);
      assert [ws[0]] + ws[1..] == ws;
    }
  }

  // ---------------------------------------------------------------------
  // Command lookup

  /** The command names CommandFactory knows, upper case, and the command each builds. */
  const COMMANDS: map<string, string> := map[
    "LOOK" := "LookCommand", "L" := "LookCommand",
    "INSPECT" := "InspectCommand",
    "TELEPORT" := "TeleportCommand", "TP" := "TeleportCommand",
    "MOVE" := "MoveCommand", "GO" := "MoveCommand", "G" := "MoveCommand",
    "BUILD" := "BuildCommand",
    "SET_ATTR" := "SetAttrCommand",
    "REMOVE_ATTR" := "RemoveAttrCommand",
    "CLAIM" := "ClaimCommand",
    "ABANDON" := "AbandonCommand",
    "LOAD" := "LoadCommand",
    "SAVE" := "SaveCommand",
    "SWITCH_PLAYER" := "SwitchPlayerCommand",
    "EXIT" := "ExitCommand",
    "HASH_PASSWORD" := "HashPasswordCommand",
    "INDEX" := "IndexCommand",
    "ROLE" := "RoleCommand",
    "SHUTDOWN" := "ShutdownCommand"]

  /** The command a line selects: none for a blank line, else a command class and its arguments. */
  datatype Selected = NoOp | Command(commandClass: string, args: seq<string>)

  /**
   * getCommand as written: a blank line is a no-op; otherwise the first
   * token, upper-cased, selects the command. A line that is not blank but
   * has no token (a lone quote) makes `tokens.get(0)` throw.
   */
  function GetCommandAsWritten(line: string): (r: Result<Selected, Exception>)
    ensures JavaTrim(line) == "" <==> r == Success(NoOp)
  {
    if JavaTrim(line) == "" then Success(NoOp)
    else
      var tokens := Texts(Scan(line));
      if |tokens| == 0 then Failure(IndexOutOfBounds("Index 0 out of bounds for length 0"))
      else
        var name := Upper(tokens[0]);
        if name !in COMMANDS then Failure(CommandFailure("Unrecognized command " + name))
        else Success(Command(COMMANDS[name], tokens[1..]))
  }

  /** A lone double quote is not blank yet has no token, so the as-written lookup throws. */
  lemma LoneQuoteThrows()
    ensures GetCommandAsWritten("\"") == Failure(IndexOutOfBounds("Index 0 out of bounds for length 0"))
  {
    var line := "\"";
    assert !IsJavaTrimmable(line[0]);
    assert JavaTrim(line) != "";
    assert line[1..] == "";
    ScanSkip(line);
    assert Texts(Scan(line)) == [];
  }

  /** getCommand with a line that has no token treated like a blank line. */
  function GetCommand(line: string): (r: Result<Selected, Exception>)
    ensures r == Success(NoOp) <==> JavaTrim(line) == "" || |Texts(Scan(line))| == 0
    ensures r.Failure? ==> r.error == CommandFailure("Unrecognized command " + Upper(Texts(Scan(line))[0]))
    ensures r.Success? && r.value.Command? ==>
      Upper(Texts(Scan(line))[0]) in COMMANDS
      && r.value == Command(COMMANDS[Upper(Texts(Scan(line))[0])], Texts(Scan(line))[1..])
    ensures GetCommandAsWritten(line).Success? ==> r == GetCommandAsWritten(line)
  {
    var tokens := Texts(Scan(line));
    if JavaTrim(line) == "" || |tokens| == 0 then Success(NoOp)
    else
      var name := Upper(tokens[0]);
      if name !in COMMANDS then Failure(CommandFailure("Unrecognized command " + name))
      else Success(Command(COMMANDS[name], tokens[1..]))
  }

  /** The corrected lookup never fails for lack of a token. */
  lemma GetCommandNeverIndexes(line: string)
    ensures GetCommand(line).Failure? ==> GetCommand(line).error.CommandFailure?
    ensures GetCommand("\"") == Success(NoOp)
  {
    LoneQuoteThrows();
  }

  // ---------------------------------------------------------------------
  // Alias rewrites

  predicate StartsWith(s: string, c: char)
  {
    |s| > 0 && s[0] == c
  }

  /** ":x rest" is POSE by the player: POSE, the player's name, x, rest. */
  function PoseAlias(line: seq<string>, playerName: string): (r: seq<string>)
    requires |line| > 0
    ensures StartsWith(line[0], ':') ==> r == ["POSE", playerName, line[0][1..]] + line[1..]
    ensures !StartsWith(line[0], ':') ==> r == line
  {
    if StartsWith(line[0], ':') then ["POSE", playerName, line[0][1..]] + line[1..] else line
  }

  /** ">x rest" is SAY x rest. */
  function SayAlias(line: seq<string>): (r: seq<string>)
    requires |line| > 0
    ensures StartsWith(line[0], '>') ==> r == ["SAY", line[0][1..]] + line[1..]
    ensures !StartsWith(line[0], '>') ==> r == line
  {
    if StartsWith(line[0], '>') then ["SAY", line[0][1..]] + line[1..] else line
  }

  /** "OOC rest", in any case, is SAY _ooc_ rest. */
  function OocAlias(line: seq<string>): (r: seq<string>)
    requires |line| > 0
    ensures EqualsIgnoreCase(line[0], "OOC") ==> r == ["SAY", "_ooc_"] + line[1..]
    ensures !EqualsIgnoreCase(line[0], "OOC") ==> r == line
  {
    if EqualsIgnoreCase(line[0], "OOC") then ["SAY", "_ooc_"] + line[1..] else line
  }

  /** "%x rest" is SAY _ooc_ x rest. */
  function PercentAlias(line: seq<string>): (r: seq<string>)
    requires |line| > 0
    ensures StartsWith(line[0], '%') ==> r == ["SAY", "_ooc_", line[0][1..]] + line[1..]
    ensures !StartsWith(line[0], '%') ==> r == line
  {
    if StartsWith(line[0], '%') then ["SAY", "_ooc_", line[0][1..]] + line[1..] else line
  }

  /** The four rewrites in their list order. */
  function Rewrite(line: seq<string>, playerName: string): (r: seq<string>)
    requires |line| > 0
    ensures |r| > 0
  {
    PercentAlias(OocAlias(SayAlias(PoseAlias(line, playerName))))
  }

  /**
   * At most one rewrite fires: once a line starts with POSE or SAY, the
   * later rewrites leave it alone; a line no rewrite matches is unchanged.
   */
  lemma RewriteFiresOnce(line: seq<string>, playerName: string)
    requires |line| > 0
    ensures StartsWith(line[0], ':') ==> Rewrite(line, playerName) == ["POSE", playerName, line[0][1..]] + line[1..]
    ensures StartsWith(line[0], '>') ==> Rewrite(line, playerName) == ["SAY", line[0][1..]] + line[1..]
    ensures EqualsIgnoreCase(line[0], "OOC") ==> Rewrite(line, playerName) == ["SAY", "_ooc_"] + line[1..]
    ensures StartsWith(line[0], '%') ==> Rewrite(line, playerName) == ["SAY", "_ooc_", line[0][1..]] + line[1..]
    ensures (!StartsWith(line[0], ':') && !StartsWith(line[0], '>') && !StartsWith(line[0], '%')
             && !EqualsIgnoreCase(line[0], "OOC")) ==> Rewrite(line, playerName) == line
  {
    assert Upper("POSE") == "POSE";
    assert Upper("SAY") == "SAY";
    if EqualsIgnoreCase(line[0], "OOC") {
      assert |line[0]| == 3 && UpperChar(line[0][0]) == 'O';
    }
  }
}
