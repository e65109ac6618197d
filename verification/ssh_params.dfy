/**
  The small decision rules of the SSH request handlers in
  rust/codex_remote_runtime/src/ssh.rs: port validation, timeout clamping,
  exit status conversion, the user@host split, the remote directory and
  command of a file write, and the failure message of a file write.
*/
module SshParams {
  import opened Wrappers
  import opened Ints
  import opened Strings
  import opened Decimal
  import opened ShellQuote

  const INVALID_PORT: string := "Invalid port"
  const BAD_USER_AT_HOST: string := "user_at_host must be username@host"

  /** A request's i32 port that fits a u16. */
  predicate ValidPort(port: i32) {
    0 <= port <= U16_MAX
  }

  /** u16::try_from on the request's i32 port. */
  function ValidatePort(port: i32): (r: Result<u16, string>)
    ensures r.Ok? <==> ValidPort(port)
    ensures r.Ok? ==> r.value == port
    ensures r.Err? ==> r.error == INVALID_PORT
  {
    if ValidPort(port) then Ok(port) else Err(INVALID_PORT)
  }

  /** timeout_ms.max(1) as u64: a timeout of at least one millisecond. */
  function ClampTimeoutMs(ms: i32): (r: nat)
    ensures r >= 1 && r >= ms
    ensures r == 1 || r == ms
  {
    if ms < 1 then 1 else ms
  }

  /** A u32 exit code as an i32: itself when it fits, -1 otherwise. */
  function ExitStatus(code: u32): (r: i32)
    ensures r == code <==> code <= I32_MAX
    ensures r != code ==> r == -1
  {
    if code <= I32_MAX then code else -1
  }

  /** The username and host of a user_at_host string. */
  datatype Target = Target(username: string, host: string)

  /** Splits user_at_host at its first '@'; fails when there is none. */
  function SplitUserAtHost(s: string): (r: Result<Target, string>)
    ensures r.Ok? <==> '@' in s
    ensures r.Ok? ==> s == r.value.username + "@" + r.value.host && '@' !in r.value.username
    ensures r.Err? ==> r.error == BAD_USER_AT_HOST
  {
    match IndexOf(s, '@')
    case None => Err(BAD_USER_AT_HOST)
    case Some(i) =>
      SplitAround(s, i);
      Ok(Target(s[..i], s[i + 1..]))
  }

  /** Joining a username without '@' and any host at '@' splits back into the two. */
  lemma SplitUserAtHostOfJoin(username: string, host: string)
    requires '@' !in username
    ensures SplitUserAtHost(username + "@" + host) == Ok(Target(username, host))
  {
    var s := username + "@" + host;
    IndexOfAfterPrefix(username, '@', host);
    assert s[..|username|] == username;
    assert s[|username| + 1..] == host;
  }

  /**
    The validation prefix of handle_install_public_key: the user@host split
    comes first, then the port.
  */
  function InstallTarget(userAtHost: string, port: i32): (r: Result<(Target, u16), string>)
    ensures '@' !in userAtHost ==> r == Err(BAD_USER_AT_HOST)
    ensures '@' in userAtHost && !ValidPort(port) ==> r == Err(INVALID_PORT)
    ensures r.Ok? <==> '@' in userAtHost && ValidPort(port)
    ensures r.Ok? ==> r.value.0 == SplitUserAtHost(userAtHost).value && r.value.1 == port
  {
    match SplitUserAtHost(userAtHost)
    case Err(e) => Err(e)
    case Ok(target) =>
      match ValidatePort(port)
      case Err(e) => Err(e)
      case Ok(p) => Ok((target, p))
  }

  /**
    The directory handle_write_file creates, as written: the text before the
    last '/', or "." when there is none.
  */
  function RemoteDirAsWritten(path: string): (r: string)
    ensures '/' !in path ==> r == "."
    ensures '/' in path ==> |r| < |path| && path[..|r|] == r && path[|r|] == '/' && '/' !in path[|r| + 1..]
  {
    match LastIndexOf(path, '/')
    case None => "."
    case Some(i) => path[..i]
  }

  /** A directory and a file name without '/', joined by '/', give back the directory. */
  lemma RemoteDirAsWrittenOfJoin(dir: string, name: string)
    requires '/' !in name
    ensures RemoteDirAsWritten(dir + "/" + name) == dir
  {
    LastIndexOfBeforeSuffix(dir, '/', name);
    assert (dir + "/" + name)[..|dir|] == dir;
  }

  /**
    The directory handle_write_file should create: as written, except that a
    file directly under the root has "/" as its directory rather than "".
  */
  function RemoteDir(path: string): (r: string)
    ensures r != []
    ensures '/' !in path ==> r == "."
    ensures '/' in path && path[0] == '/' && '/' !in path[1..] ==> r == "/"
    ensures '/' in path && r != "/" ==> |r| < |path| && path[..|r|] == r && path[|r|] == '/' && '/' !in path[|r| + 1..]
  {
    match LastIndexOf(path, '/')
    case None => "."
    case Some(i) => if i == 0 then "/" else path[..i]
  }

  /** The two functions agree on every path except a file directly under the root. */
  lemma RemoteDirCorrectsOnlyRootFiles(path: string)
    ensures RemoteDirAsWritten(path) != RemoteDir(path) <==> path != [] && path[0] == '/' && '/' !in path[1..]
  {
    match LastIndexOf(path, '/')
    case None =>
    case Some(i) =>
      if i > 0 {
        assert path[i] == '/';
        assert path[1..][i - 1] == '/';
      }
  }

  /** Words separated by single spaces. */
  function JoinWords(words: seq<string>): string
    requires |words| > 0
  {
    if |words| == 1 then words[0] else words[0] + " " + JoinWords(words[1..])
  }

  /** The command line that creates the directory and writes stdin to the path. */
  function WriteFileCommandFor(dir: string, path: string): string {
    "mkdir -p " + ShQuote(dir) + " && cat > " + ShQuote(path)
  }

  /** The tokens the shell should see: mkdir -p <dir> && cat > <path>, with && and > as operators. */
  function WriteTokens(dir: string, path: string): seq<Token> {
    [Word("mkdir"), Word("-p"), Word(dir), Op("&&"), Word("cat"), Op(">"), Word(path)]
  }

  /**
    The command line of handle_write_file with the corrected directory: the
    shell reads it as mkdir of a non-empty directory, then, on success, cat
    redirected into the exact path.
  */
  function WriteFileCommand(path: string): (r: string)
    ensures Tokens(r) == Some(WriteTokens(RemoteDir(path), path))
  {
    WriteFileCommandForTokens(RemoteDir(path), path);
    WriteFileCommandFor(RemoteDir(path), path)
  }

  /** The command line of handle_write_file as written: mkdir of the as-written directory, then cat into the path. */
  function WriteFileCommandAsWritten(path: string): (r: string)
    ensures Tokens(r) == Some(WriteTokens(RemoteDirAsWritten(path), path))
  {
    WriteFileCommandForTokens(RemoteDirAsWritten(path), path);
    WriteFileCommandFor(RemoteDirAsWritten(path), path)
  }

  lemma JoinWordsCons(words: seq<string>)
    requires |words| >= 2
    ensures JoinWords(words) == words[0] + " " + JoinWords(words[1..])
  {
  }

  lemma CommandTail(q: string)
    ensures "&&" + " " + ("cat" + " " + (">" + " " + q)) == "&& cat > " + q
  {
  }

  lemma CommandHead(q1: string, t: string)
    ensures "mkdir" + " " + ("-p" + " " + (q1 + " " + t)) == "mkdir -p " + q1 + " " + t
  {
  }

  /** The format string of the write command, read as seven space-separated words. */
  lemma CommandIsJoin(q1: string, q2: string)
    ensures "mkdir -p " + q1 + " && cat > " + q2 == JoinWords(["mkdir", "-p", q1, "&&", "cat", ">", q2])
  {
    var ws := ["mkdir", "-p", q1, "&&", "cat", ">", q2];
    JoinWordsCons(ws);
    JoinWordsCons(ws[1..]);
    JoinWordsCons(ws[2..]);
    JoinWordsCons(ws[3..]);
    JoinWordsCons(ws[4..]);
    JoinWordsCons(ws[5..]);
    assert ws[1..][1..] == ws[2..] && ws[2..][1..] == ws[3..] && ws[3..][1..] == ws[4..];
    assert ws[4..][1..] == ws[5..] && ws[5..][1..] == ws[6..] && ws[6..] == [q2];
    var tail := "&&" + " " + ("cat" + " " + (">" + " " + q2));
    assert JoinWords(ws) == "mkdir" + " " + ("-p" + " " + (q1 + " " + tail));
    CommandTail(q2);
    CommandHead(q1, "&& cat > " + q2);
    Regroup("mkdir -p " + q1, " ", "&& cat > ", q2);
    assert " " + "&& cat > " == " && cat > ";
    Regroup("mkdir -p " + q1, " ", "&& cat > " + q2, []);
  }

  /** An encoded piece of a command line that the shell reads as exactly one token, at any blank boundary. */
  ghost predicate Lexes(encoded: string, tok: Token) {
    forall t :: (t == [] || t[0] == ' ') ==> Tokens(encoded + t) == ConsToken(tok, Tokens(t))
  }

  /** Pieces joined by single blanks are read as their tokens, in order. */
  lemma {:induction false} TokensOfJoin(encoded: seq<string>, toks: seq<Token>)
    requires |encoded| == |toks| > 0
    requires forall i :: 0 <= i < |encoded| ==> Lexes(encoded[i], toks[i])
    ensures Tokens(JoinWords(encoded)) == Some(toks)
    decreases |encoded|
  {
    if |encoded| == 1 {
      TokensOfSingle(encoded[0], toks[0]);
      assert toks == [toks[0]];
    } else {
      TokensOfJoin(encoded[1..], toks[1..]);
      var more := JoinWords(encoded[1..]);
      assert Tokens(encoded[0] + (" " + more)) == ConsToken(toks[0], Tokens(" " + more)) by {
        assert Lexes(encoded[0], toks[0]);
        assert (" " + more)[0] == ' ';
      }
      TokensOfJoinStep(encoded, toks);
    }
  }

  lemma TokensOfSingle(e: string, tok: Token)
    requires Lexes(e, tok)
    ensures Tokens(e) == Some([tok])
  {
    assert e + [] == e;
    assert Tokens(e + []) == ConsToken(tok, Tokens([]));
    assert Tokens([]) == Some([]);
    assert [tok] + [] == [tok];
  }

  /** The inductive step of TokensOfJoin: the first piece's token, then the rest's. */
  lemma TokensOfJoinStep(encoded: seq<string>, toks: seq<Token>)
    requires |encoded| == |toks| > 1
    requires Tokens(encoded[0] + (" " + JoinWords(encoded[1..]))) == ConsToken(toks[0], Tokens(" " + JoinWords(encoded[1..])))
    requires Tokens(JoinWords(encoded[1..])) == Some(toks[1..])
    ensures Tokens(JoinWords(encoded)) == Some(toks)
  {
    var first := encoded[0];
    var more := JoinWords(encoded[1..]);
    assert JoinWords(encoded) == first + (" " + more) by {
      JoinWordsCons(encoded);
      Regroup(first, " ", more, []);
    }
    TokensSkipBlank(more);
    assert [toks[0]] + toks[1..] == toks;
  }

  /** sh_quote's output is read as one word token carrying the original text. */
  lemma QuotedLexes(s: string)
    ensures Lexes(ShQuote(s), Word(s))
  {
    forall t | t == [] || t[0] == ' '
      ensures Tokens(ShQuote(s) + t) == ConsToken(Word(s), Tokens(t))
    {
      ShQuoteTokens(s, t);
    }
  }

  /** A non-empty word of safe characters is read as itself. */
  lemma BareLexes(w: string)
    requires w != [] && IsBareWord(w)
    ensures Lexes(w, Word(w))
  {
    QuotedLexes(w);
  }

  /** && followed by a blank or the end is the and-if operator. */
  lemma AndIfLexes()
    ensures Lexes("&&", Op("&&"))
  {
    forall t | t == [] || t[0] == ' '
      ensures Tokens("&&" + t) == ConsToken(Op("&&"), Tokens(t))
    {
      var w := "&&" + t;
      assert w[0] == '&' && w[..2] == "&&" && w[2..] == t;
      assert OperatorLength(w) == 2;
    }
  }

  /** > followed by a blank or the end is the output redirection operator. */
  lemma RedirectLexes()
    ensures Lexes(">", Op(">"))
  {
    forall t | t == [] || t[0] == ' '
      ensures Tokens(">" + t) == ConsToken(Op(">"), Tokens(t))
    {
      var w := ">" + t;
      assert w[0] == '>' && w[..1] == ">" && w[1..] == t;
      OperatorBeforeBlank(w);
      assert Tokens(w) == ConsToken(Op(w[..1]), Tokens(w[1..]));
    }
  }

  /**
    The shell reads the file-write command as mkdir -p <dir>, the && operator,
    cat, the > operator and <path>: the directory and the path each arrive as
    one word, unchanged, and the two operators are real operators.
  */
  lemma WriteFileCommandForTokens(dir: string, path: string)
    ensures Tokens(WriteFileCommandFor(dir, path)) == Some(WriteTokens(dir, path))
  {
    var encoded := ["mkdir", "-p", ShQuote(dir), "&&", "cat", ">", ShQuote(path)];
    CommandIsJoin(ShQuote(dir), ShQuote(path));
    CommandPiecesLex(dir, path);
    TokensOfJoin(encoded, WriteTokens(dir, path));
  }

  /** Each piece of the write command is read as the token it stands for. */
  lemma CommandPiecesLex(dir: string, path: string)
    ensures forall i :: 0 <= i < 7 ==>
      Lexes(["mkdir", "-p", ShQuote(dir), "&&", "cat", ">", ShQuote(path)][i], WriteTokens(dir, path)[i])
  {
    var encoded := ["mkdir", "-p", ShQuote(dir), "&&", "cat", ">", ShQuote(path)];
    var toks := WriteTokens(dir, path);
    forall i | 0 <= i < 7
      ensures Lexes(encoded[i], toks[i])
    {
      if i == 2 {
        QuotedLexes(dir);
      } else if i == 6 {
        QuotedLexes(path);
      } else {
        LiteralPiecesLex();
      }
    }
  }

  /** The fixed pieces of the write command: three bare words and two operators. */
  lemma LiteralPiecesLex()
    ensures Lexes("mkdir", Word("mkdir")) && Lexes("-p", Word("-p")) && Lexes("cat", Word("cat"))
    ensures Lexes("&&", Op("&&")) && Lexes(">", Op(">"))
  {
    BareLexes("mkdir");
    BareLexes("-p");
    BareLexes("cat");
    AndIfLexes();
    RedirectLexes();
  }

  /** The corrected command line differs from the one as written exactly for a file directly under the root. */
  lemma CorrectionChangesOnlyRootCommands(path: string)
    ensures WriteFileCommand(path) != WriteFileCommandAsWritten(path)
      <==> path != [] && path[0] == '/' && '/' !in path[1..]
  {
    CommandsDifferWithDirectories(path);
    RemoteDirCorrectsOnlyRootFiles(path);
  }

  /** The two command lines differ exactly when their directories do: the shell reads the directory back. */
  lemma CommandsDifferWithDirectories(path: string)
    ensures WriteFileCommand(path) != WriteFileCommandAsWritten(path) <==> RemoteDir(path) != RemoteDirAsWritten(path)
  {
    if WriteFileCommand(path) == WriteFileCommandAsWritten(path) {
      SameTokensSameDirectory(WriteFileCommand(path), WriteFileCommandAsWritten(path),
        RemoteDir(path), RemoteDirAsWritten(path), path);
    }
  }

  lemma SameTokensSameDirectory(a: string, b: string, d1: string, d2: string, path: string)
    requires Tokens(a) == Some(WriteTokens(d1, path)) && Tokens(b) == Some(WriteTokens(d2, path)) && a == b
    ensures d1 == d2
  {
    assert WriteTokens(d1, path)[2] == Word(d1);
    assert WriteTokens(d2, path)[2] == Word(d2);
  }

  /**
    As written, a file directly under the root gets the empty directory, so
    the shell runs mkdir -p '' which fails, and cat never runs.
  */
  lemma RootFileAsWrittenGivesEmptyDirectory()
    ensures RemoteDirAsWritten("/x") == []
    ensures WriteFileCommandAsWritten("/x") == "mkdir -p '' && cat > /x"
    ensures Tokens(WriteFileCommandAsWritten("/x")) == Some(WriteTokens("", "/x"))
  {
    RootDirAsWritten();
    assert WriteFileCommandAsWritten("/x") == WriteFileCommandFor("", "/x");
    RootCommandLiteral();
    WriteFileCommandForTokens("", "/x");
  }

  lemma RootCommandLiteral()
    ensures WriteFileCommandFor("", "/x") == "mkdir -p '' && cat > /x"
  {
    ShQuoteRootFile();
    assert "mkdir -p " + "''" + " && cat > " + "/x" == "mkdir -p '' && cat > /x";
  }

  lemma RootDirAsWritten()
    ensures RemoteDirAsWritten("/x") == []
  {
    RemoteDirAsWrittenOfJoin("", "x");
    assert "" + "/" + "x" == "/x";
  }

  lemma ShQuoteRootFile()
    ensures ShQuote("/x") == "/x"
    ensures ShQuote("") == "''"
  {
    assert IsBareWord("/x") by {
      assert "/x"[0] == '/' && "/x"[1] == 'x';
    }
  }

  /** The text a failed write reports: trimmed stderr, or trimmed stdout when stderr is blank. */
  function WriteFailureDetail(stderr: string, stdout: string): (r: string)
    ensures !IsBlank(stderr) ==> r == Trim(stderr) && r != []
    ensures IsBlank(stderr) ==> r == Trim(stdout)
  {
    Trim(if IsBlank(stderr) then stdout else stderr)
  }

  const WRITE_FAILED_PREFIX: string := "write failed (exit="

  /** The error of a write whose command exited non-zero: the status, then the detail text. */
  function WriteFailedMessage(status: i32, stderr: string, stdout: string): string {
    WRITE_FAILED_PREFIX + IntToString(status) + "): " + WriteFailureDetail(stderr, stdout)
  }

  /** Reads a write-failure message back into its exit status and detail text. */
  function ReadWriteFailedMessage(msg: string): (r: Option<(int, string)>)
    ensures r.Some? ==> |WRITE_FAILED_PREFIX| <= |msg| && msg[..|WRITE_FAILED_PREFIX|] == WRITE_FAILED_PREFIX
  {
    var p := |WRITE_FAILED_PREFIX|;
    if |msg| < p || msg[..p] != WRITE_FAILED_PREFIX then None
    else
      var rest := msg[p..];
      match IndexOf(rest, ')')
      case None => None
      case Some(k) =>
        if |rest| < k + 3 || rest[k..k + 3] != "): " then None
        else match ParseInt(rest[..k])
          case None => None
          case Some(n) => Some((n, rest[k + 3..]))
  }

  lemma NoParenInNumber(i: int)
    ensures ')' !in IntToString(i)
  {
    var r := IntToString(i);
    forall k | 0 <= k < |r|
      ensures r[k] != ')'
    {
      if k > 0 || i >= 0 {
        if i < 0 { assert r[k] == r[1..][k - 1]; }
      }
    }
  }

  lemma SplitMessage(prefix: string, num: string, detail: string)
    ensures (prefix + num + "): " + detail)[..|prefix|] == prefix
    ensures (prefix + num + "): " + detail)[|prefix|..] == num + [')'] + (": " + detail)
  {
  }

  lemma SplitRest(num: string, detail: string)
    ensures (num + [')'] + (": " + detail))[..|num|] == num
    ensures (num + [')'] + (": " + detail))[|num|..|num| + 3] == "): "
    ensures (num + [')'] + (": " + detail))[|num| + 3..] == detail
  {
  }

  /** A write-failure message names the exit status and the detail it was built from, recoverably. */
  lemma WriteFailedMessageReadsBack(status: i32, stderr: string, stdout: string)
    ensures ReadWriteFailedMessage(WriteFailedMessage(status, stderr, stdout))
      == Some((status as int, WriteFailureDetail(stderr, stdout)))
  {
    var num := IntToString(status);
    var detail := WriteFailureDetail(stderr, stdout);
    var msg := WriteFailedMessage(status, stderr, stdout);
    var p := |WRITE_FAILED_PREFIX|;
    var rest := num + [')'] + (": " + detail);
    assert p <= |msg| && msg[..p] == WRITE_FAILED_PREFIX && msg[p..] == rest by {
      SplitMessage(WRITE_FAILED_PREFIX, num, detail);
    }
    assert IndexOf(rest, ')') == Some(|num|) by {
      NoParenInNumber(status);
      IndexOfAfterPrefix(num, ')', ": " + detail);
    }
    assert rest[..|num|] == num && rest[|num|..|num| + 3] == "): " && rest[|num| + 3..] == detail by {
      SplitRest(num, detail);
    }
    assert ParseInt(num) == Some(status as int) by {
      ParseIntToString(status);
    }
    ReadWriteFailedParts(msg, num, status as int, detail);
  }

  /** The reader accepts a message whose parts after the prefix are a number, "): " and the detail. */
  lemma ReadWriteFailedParts(msg: string, num: string, n: int, detail: string)
    requires |WRITE_FAILED_PREFIX| <= |msg| && msg[..|WRITE_FAILED_PREFIX|] == WRITE_FAILED_PREFIX
    requires msg[|WRITE_FAILED_PREFIX|..] == num + [')'] + (": " + detail)
    requires IndexOf(num + [')'] + (": " + detail), ')') == Some(|num|)
    requires (num + [')'] + (": " + detail))[..|num|] == num
    requires (num + [')'] + (": " + detail))[|num|..|num| + 3] == "): "
    requires (num + [')'] + (": " + detail))[|num| + 3..] == detail
    requires ParseInt(num) == Some(n)
    ensures ReadWriteFailedMessage(msg) == Some((n, detail))
  {
  }

}
