/**
  add_line: the client's splitter as it works, rewriting the line in place behind its read
  position and moving accepted text to the statement buffer from time to time.
 */
module AddLine {
  import opened Shared
  import opened Scanner

  /** How a branch of the loop ends. */
  datatype Flow = Continue | Break | Return

  class Splitter {
    const env: Env
    var buffer: seq<char>          // glob_buffer
    var inString: char
    var mlComment: bool
    var mode: Mode
    var sent: seq<Event>

    // the variables of one add_line call
    var ssComment: bool
    var needSpace: bool
    var pos: nat
    var out: nat
    ghost var text: seq<char>      // everything accepted: buffer + line[..out]
    ghost var src: seq<char>       // the line as it was given
    ghost var orig: seq<char>      // the whole array as it was given

    constructor (e: Env, m: Mode)
      ensures env == e && Between() == Carry([], NUL, false, m, [], false)
    {
      env, mode := e, m;
      buffer, inString, mlComment, sent := [], NUL, false, [];
      ssComment, needSpace, pos, out := false, false, 0, 0;
      text, src, orig := [], [], [];
    }

    /** The state between lines. */
    ghost function Between(): Carry
      reads this
    {
      Carry(buffer, inString, mlComment, mode, sent, false)
    }

    /** The scanner's view of the state inside a line. */
    ghost function Abs(): Scan
      reads this
    {
      Scan(text, |buffer|, inString, mlComment, ssComment, needSpace, mode, sent)
    }

    /**
      The line lies at a[line..line + n]. The write position stays behind the read position,
      with room for a pending space; from the read position on the line is as given, and
      outside the line and its terminator the array is.
     */
    ghost predicate Editing(a: array<char>, line: nat, n: nat)
      reads this`pos, this`out, this`needSpace, this`text, this`buffer, this`src, this`orig, a
    {
      && |orig| == a.Length && |src| == n && line + n < a.Length && NUL !in src
      && line <= out && out + (if needSpace then 1 else 0) <= pos <= line + n
      && |text| == |buffer| + (out - line)
      && (forall k :: 0 <= k < |buffer| ==> buffer[k] == text[k])
      && (forall k :: line <= k < out ==> a[k] == text[|buffer| + (k - line)])
      && a[line + n] == NUL
      && (forall k :: pos <= k < line + n ==> a[k] == src[k - line])
      && (forall k :: 0 <= k < a.Length && (k < line || line + n < k) ==> a[k] == orig[k])
    }

    /** Read past k characters and append t to the accepted part of the line. */
    method Consume(a: array<char>, ghost line: nat, ghost n: nat, k: nat, t: seq<char>)
      requires Editing(a, line, n) && pos + k <= line + n
      requires out + |t| + (if needSpace then 1 else 0) <= pos + k
      modifies this`pos, this`out, this`text, a
      ensures Editing(a, line, n)
      ensures pos == old(pos) + k && out == old(out) + |t| && text == old(text) + t
    {
      var start := out;
      forall i | 0 <= i < |t| { a[start + i] := t[i]; }
      pos, out := pos + k, out + |t|;
      text := text + t;
    }

    /** Move the accepted part of the line to the statement buffer. */
    method FlushOut(a: array<char>, line: nat, ghost n: nat)
      requires Editing(a, line, n)
      modifies this`buffer, this`out
      ensures Editing(a, line, n) && out == line && buffer == text
    {
      if out != line {
        buffer := buffer + a[line..out];
        out := line;
      }
      assert buffer == text;
    }

    /** is_prefix(pos, delimiter) */
    method PrefixHere(a: array<char>, ghost line: nat, ghost n: nat, at: nat, d: seq<char>)
      returns (b: bool)
      requires Editing(a, line, n) && pos <= at <= line + n && d != [] && NUL !in d
      ensures b == PrefixAt(src, at - line, d)
    {
      ghost var i := at - line;
      var t := 0;
      while t < |d|
        invariant t <= |d| && at + t <= line + n
        invariant src[i..i + t] == d[..t]
      {
        assert d[t] in d;
        if a[at + t] != d[t] {
          assert i + |d| <= |src| ==> src[i..i + |d|][t] == src[i + t];
          return false;
        }
        assert src[i..i + t + 1] == src[i..i + t] + [d[t]];
        assert d[..t + 1] == d[..t] + [d[t]];
        t := t + 1;
      }
      assert d[..|d|] == d;
      return true;
    }

    /** A read of the line or its terminator, never beyond. */
    function Peek(a: array<char>, line: nat, n: nat, k: nat): char
      requires pos <= k <= line + n < a.Length
      reads this, a
    {
      a[k]
    }

    /** Characters that are simply added, or dropped inside a comment. */
    method TakeChar(a: array<char>, line: nat, n: nat)
      requires Editing(a, line, n) && pos < line + n
      modifies this`ssComment, this`inString, this`needSpace, this`pos, this`out, this`text, a
      ensures Editing(a, line, n)
      ensures Next(Abs(), pos - line) == CharStep(env, src, old(pos) - line, old(Abs()))
    {
      ghost var st, i := Abs(), pos - line;
      var inchar := Peek(a, line, n, pos);
      TrackServerComment(a, line, n);
      TrackQuote(inchar);
      ghost var st1 := st.(inServerComment := NextServerComment(st, src, i), quote := NextQuote(st, inchar));
      assert Abs() == st1;
      if !mlComment || env.preserveComments {
        AddChar(a, line, n, inchar);
      } else {
        Consume(a, line, n, 1, []);
      }
    }

    /** Append the character, after a space if one is due. */
    method AddChar(a: array<char>, line: nat, n: nat, c: char)
      requires Editing(a, line, n) && pos < line + n
      modifies this`needSpace, this`pos, this`out, this`text, a
      ensures Editing(a, line, n) && pos == old(pos) + 1
      ensures Abs() == Accept(old(Abs()).(needSpace := false),
                              (if old(needSpace) && !env.isSpace(c) then [' '] else []) + [c])
    {
      var space := if needSpace && !env.isSpace(c) then [' '] else [];
      needSpace := false;
      Consume(a, line, n, 1, space + [c]);
    }

    method TrackQuote(inchar: char)
      modifies this`inString
      ensures inString == NextQuote(old(Abs()), inchar)
    {
      if inchar == inString {
        inString := NUL;
      } else if !mlComment && inString == NUL && (inchar == '\'' || inchar == '"' || inchar == '`') {
        inString := inchar;
      }
    }

    method TrackServerComment(a: array<char>, line: nat, n: nat)
      requires Editing(a, line, n) && pos < line + n
      modifies this`ssComment
      ensures ssComment == NextServerComment(old(Abs()), src, pos - line)
    {
      var inchar := Peek(a, line, n, pos);
      if inString == NUL && inchar == '/' && Peek(a, line, n, pos + 1) == '*' && Peek(a, line, n, pos + 2) == '!' {
        ssComment := true;
      } else if inString == NUL && ssComment && inchar == '*' && Peek(a, line, n, pos + 1) == '/' {
        ssComment := false;
      }
    }

    /** The start of a comment that is removed (or kept whole). */
    method OpenComment(a: array<char>, line: nat, n: nat)
      requires Editing(a, line, n) && pos + 1 < line + n
      requires OpensComment(src, pos - line)
      modifies this`mlComment, this`buffer, this`pos, this`out, this`text, a
      ensures Editing(a, line, n)
      ensures Next(Abs(), pos - line) == OpenStep(env, old(pos) - line, old(Abs()))
    {
      Consume(a, line, n, 2, if env.preserveComments then ['/', '*'] else []);
      mlComment := true;
      FlushOut(a, line, n);
    }

    /** The end of a comment; a space may be needed where it was. */
    method CloseComment(a: array<char>, line: nat, n: nat)
      requires Editing(a, line, n) && pos + 1 < line + n
      requires ClosesComment(src, pos - line)
      modifies this`mlComment, this`needSpace, this`buffer, this`pos, this`out, this`text, a
      ensures Editing(a, line, n)
      ensures Next(Abs(), pos - line) == CloseStep(env, old(pos) - line, old(Abs()))
    {
      hide ClosesComment;
      Consume(a, line, n, 2, if env.preserveComments then ['*', '/'] else []);
      mlComment := false;
      FlushOut(a, line, n);
      needSpace := true;
    }

    /** A backslash escape that is kept as it is. */
    method KeepEscape(a: array<char>, line: nat, n: nat, c: char)
      requires Editing(a, line, n) && pos + 1 < line + n
      modifies this`pos, this`out, this`text, a
      ensures Editing(a, line, n)
      ensures Next(Abs(), pos - line) == Next(Accept(old(Abs()), ['\\', c]), old(pos) - line + 2)
    {
      Consume(a, line, n, 2, ['\\', c]);
    }

    /** The loop that looks for the end of a server-side comment. */
    method SeekClose(a: array<char>, line: nat, n: nat, from: nat) returns (k: nat)
      requires Editing(a, line, n) && pos <= from <= line + n
      ensures from <= k <= line + n && k - line == FindClose(src, from - line)
    {
      k := from;
      while Peek(a, line, n, k) != NUL && (Peek(a, line, n, k) != '*' || Peek(a, line, n, k + 1) != '/')
        invariant from <= k <= line + n
        invariant FindClose(src, from - line) == FindClose(src, k - line)
        decreases line + n - k
      {
        k := k + 1;
      }
    }

    /** The loop that looks for the delimiter. */
    method SeekDelimiter(a: array<char>, line: nat, n: nat, from: nat, d: seq<char>) returns (k: nat)
      requires Editing(a, line, n) && pos <= from <= line + n && d != [] && NUL !in d
      ensures from <= k <= line + n && k - line == FindDelimiter(src, from - line, d)
    {
      k := from;
      while Peek(a, line, n, k) != NUL
        invariant from <= k <= line + n
        invariant FindDelimiter(src, from - line, d) == FindDelimiter(src, k - line, d)
        decreases line + n - k
      {
        var found := PrefixHere(a, line, n, k, d);
        if found { return; }
        k := k + 1;
      }
    }

    /** Skip a short command and the parameters it takes. */
    method SkipParameters(a: array<char>, line: nat, n: nat)
      requires Editing(a, line, n) && pos + 1 < line + n
      modifies this`pos
      ensures Editing(a, line, n)
      ensures pos - line == AfterShortCommand(env, src, old(pos) - line, ssComment, mode.delimiter)
    {
      hide FindClose, FindDelimiter;
      var k := pos + 2;
      if env.takesParams(Peek(a, line, n, pos + 1)) {
        if ssComment {
          k := SeekClose(a, line, n, k);
        } else {
          k := SeekDelimiter(a, line, n, k, mode.delimiter);
          if k != line + n { k := k + |mode.delimiter|; }
        }
      }
      pos := k;
    }

    /** What a branch did is what the scanner's step says. */
    ghost predicate Did(flow: Flow, step: Step, line: nat)
      reads this
    {
      match flow
      case Continue => pos >= line && step == Next(Abs(), pos - line)
      case Break => step == Stop(Abs())
      case Return => step == Quit(Abs())
    }

    /** The rest of the line from the read position, terminator excluded. */
    method RestOfLine(a: array<char>, line: nat, n: nat, ghost i: nat) returns (rest: seq<char>)
      requires Editing(a, line, n) && i == pos - line
      ensures rest == src[i..]
    {
      rest := a[pos..line + n];
    }

    /** Hand the text so far to a short command, which decides what becomes of it. */
    method SendShortCommand(a: array<char>, line: nat, n: nat) returns (quit: bool)
      requires Editing(a, line, n) && pos + 1 < line + n
      modifies this`buffer, this`mode, this`sent, this`out, this`text
      ensures Editing(a, line, n)
      ensures Abs() == SendShort(env, src, pos - line, old(Abs())) && quit == env.reply(sent).quit
    {
      FlushOut(a, line, n);
      var rest := RestOfLine(a, line, n, pos - line);
      quit := Send(ShortCommand(Peek(a, line, n, pos + 1), rest, buffer));
    }

    /** Send an event and take over the buffer and mode that come back. */
    method Send(event: Event) returns (quit: bool)
      requires text == buffer
      modifies this`buffer, this`mode, this`sent, this`text
      ensures sent == old(sent) + [event] && quit == env.reply(sent).quit
      ensures text == buffer == env.reply(sent).buffer && mode == env.reply(sent).mode
    {
      sent := sent + [event];
      var r := env.reply(sent);
      buffer, mode, quit := r.buffer, r.mode, r.quit;
      text := r.buffer;
    }

    /** A short command: run it and skip its parameters. */
    method RunShortCommand(a: array<char>, line: nat, n: nat) returns (flow: Flow)
      requires Editing(a, line, n) && pos + 1 < line + n
      modifies this`buffer, this`mode, this`sent, this`pos, this`out, this`text
      ensures Editing(a, line, n)
      ensures Did(flow, ShortCommandStep(env, src, old(pos) - line, old(Abs())), line)
    {
      var quit := SendShortCommand(a, line, n);
      if quit { return Return; }
      SkipParameters(a, line, n);
      return Continue;
    }

    /** A backslash outside comments. */
    method TakeEscape(a: array<char>, line: nat, n: nat) returns (flow: Flow)
      requires Editing(a, line, n) && pos < line + n
      modifies this`buffer, this`mode, this`sent, this`pos, this`out, this`text, a
      ensures Editing(a, line, n)
      ensures Did(flow, EscapeStep(env, src, old(pos) - line, old(Abs())), line)
    {
      var c := Peek(a, line, n, pos + 1);
      if c == NUL { return Break; }
      if inString != NUL || c == 'N' {
        KeepEscape(a, line, n, c);
        return Continue;
      }
      if env.isShortCommand(c) {
        flow := RunShortCommand(a, line, n);
        return;
      }
      sent := sent + [UnknownCommand(c)];
      if env.reply(sent).quit { return Return; }
      KeepEscape(a, line, n, c);
      return Continue;
    }

    lemma OneMore(t: seq<char>, s: seq<char>, from: nat, i: nat)
      requires from <= i < |s|
      ensures t + s[from..i + 1] == t + s[from..i] + [s[i]]
    {
      assert s[from..i + 1] == s[from..i] + [s[i]];
    }

    lemma OneSkipped(s: seq<char>, i: nat)
      requires i <= |s|
      ensures SkipSpaces(env.isSpace, s, i) == if env.isSpace(At(s, i)) && i < |s|
              then SkipSpaces(env.isSpace, s, i + 1) else i
    {
    }

    /** White space behind a delimiter, kept when comments are. */
    method TakeSpaces(a: array<char>, line: nat, n: nat)
      requires Editing(a, line, n) && ValidEnv(env)
      modifies this`pos, this`out, this`text, a
      ensures Editing(a, line, n) && pos >= old(pos)
      ensures pos - line == SkipSpaces(env.isSpace, src, old(pos) - line)
      ensures text == old(text) + src[old(pos) - line..pos - line]
    {
      hide SkipSpaces;
      ghost var from := pos - line;
      assert text == text + src[from..from];
      while env.isSpace(Peek(a, line, n, pos))
        invariant Editing(a, line, n) && line + from <= pos
        invariant SkipSpaces(env.isSpace, src, from) == SkipSpaces(env.isSpace, src, pos - line)
        invariant text == old(text) + src[from..pos - line]
        decreases line + n - pos
      {
        ghost var i := pos - line;
        OneMore(old(text), src, from, i);
        OneSkipped(src, i);
        Consume(a, line, n, 1, [Peek(a, line, n, pos)]);
      }
      OneSkipped(src, pos - line);
    }

    /** Append to the statement buffer when nothing of the line is waiting. */
    method AppendBuffer(a: array<char>, line: nat, n: nat, t: seq<char>)
      requires Editing(a, line, n) && out == line
      modifies this`buffer, this`text
      ensures Editing(a, line, n) && text == buffer == old(text) + t
    {
      assert buffer == text;
      buffer := buffer + t;
      text := buffer;
    }

    /** Append the rest of the line to the statement buffer and move to the line's end. */
    method TakeRest(a: array<char>, line: nat, n: nat)
      requires Editing(a, line, n) && out == line
      modifies this`buffer, this`pos, this`text
      ensures Editing(a, line, n) && pos == line + n
      ensures text == buffer == old(text) + src[old(pos) - line..]
    {
      ghost var i := pos - line;
      var rest := RestOfLine(a, line, n, i);
      AppendBuffer(a, line, n, rest);
      assert text == old(text) + src[i..];
      pos := line + n;
    }

    /** Hand on a complete text; unless that ends the client, start afresh. */
    method HandOn(a: array<char>, line: nat, n: nat, event: Event) returns (quit: bool)
      requires Editing(a, line, n) && out == line && text == buffer
      modifies this`buffer, this`mode, this`sent, this`text
      ensures Editing(a, line, n)
      ensures SendComplete(env, old(Abs()), event) == if quit then Gone(Abs()) else Left(Abs())
    {
      sent := sent + [event];
      var r := env.reply(sent);
      if r.quit { return true; }
      buffer, mode := [], r.mode;
      text := [];
      return false;
    }

    /** Pass the delimiter, and the white space behind it when that is kept. */
    method PassDelimiter(a: array<char>, line: nat, n: nat, ghost j: nat, ghost t: seq<char>)
      requires Editing(a, line, n) && ValidEnv(env) && PrefixAt(src, pos - line, mode.delimiter)
      requires j == pos - line + |mode.delimiter| && t == text
      modifies this`buffer, this`pos, this`out, this`text, a
      ensures Editing(a, line, n) && out == line && text == buffer && j <= pos - line
      ensures pos - line == if env.preserveComments then SkipSpaces(env.isSpace, src, j) else j
      ensures text == t + src[j..pos - line]
    {
      Consume(a, line, n, |mode.delimiter|, []);
      assert text == t + src[j..j];
      if env.preserveComments {
        TakeSpaces(a, line, n);
      }
      FlushOut(a, line, n);
    }

    /** A comment at the end of the line belongs to the statement before it. */
    method TakeTrailing(a: array<char>, line: nat, n: nat, ghost j: nat, ghost t: seq<char>)
      requires Editing(a, line, n) && out == line && j <= pos - line && text == buffer == t + src[j..pos - line]
      modifies this`buffer, this`pos, this`text
      ensures Editing(a, line, n) && j <= pos - line && text == buffer == t + src[j..pos - line]
      ensures pos == if TrailingComment(env, src, old(pos) - line) then line + n else old(pos)
    {
      var trailing := SeesTrailingComment(a, line, n);
      if trailing {
        TwoSlices(t, src, j, pos - line);
        TakeRest(a, line, n);
      }
    }

    /** Collect what still belongs to the statement behind its delimiter. */
    method CollectStatement(a: array<char>, line: nat, n: nat, ghost j: nat, ghost t: seq<char>)
      requires Editing(a, line, n) && ValidEnv(env) && PrefixAt(src, pos - line, mode.delimiter)
      requires j == pos - line + |mode.delimiter| && t == text
      modifies this`buffer, this`pos, this`out, this`text, a
      ensures Editing(a, line, n) && out == line && text == buffer && j <= pos - line
      ensures pos - line == StatementEnd(env, src, old(pos) - line, mode.delimiter)
      ensures text == t + src[j..pos - line]
    {
      PassDelimiter(a, line, n, j, t);
      TakeTrailing(a, line, n, j, t);
    }

    lemma TwoSlices(t: seq<char>, s: seq<char>, j: nat, k: nat)
      requires j <= k <= |s|
      ensures t + s[j..k] + s[k..] == t + s[j..|s|]
    {
      assert s[j..k] + s[k..] == s[j..];
    }

    method SeesTrailingComment(a: array<char>, line: nat, n: nat) returns (b: bool)
      requires Editing(a, line, n)
      ensures b == TrailingComment(env, src, pos - line)
    {
      b := env.preserveComments
           && (Peek(a, line, n, pos) == '#'
               || (Peek(a, line, n, pos) == '-' && Peek(a, line, n, pos + 1) == '-'
                   && env.isSpace(Peek(a, line, n, pos + 2))));
    }

    /** The delimiter outside strings and comments. */
    method TakeDelimiter(a: array<char>, line: nat, n: nat) returns (flow: Flow)
      requires Editing(a, line, n) && ValidEnv(env) && pos < line + n
      requires PrefixAt(src, pos - line, mode.delimiter)
      modifies this`buffer, this`mode, this`sent, this`pos, this`out, this`text, a
      ensures Editing(a, line, n)
      ensures Did(flow, DelimiterStep(env, src, old(pos) - line, old(Abs())), line)
    {
      ghost var st, j := Abs(), pos - line + |mode.delimiter|;
      CollectStatement(a, line, n, j, text);
      assert Abs() == Flush(Accept(st, src[j..pos - line]));
      SendFlushed(env, Accept(st, src[j..pos - line]), Statement(buffer));
      var quit := HandOn(a, line, n, Statement(buffer));
      flow := if quit then Return else Continue;
    }

    static lemma SendFlushed(env: Env, st: Scan, event: Event)
      ensures SendComplete(env, Flush(st), event) == SendComplete(env, st, event)
    {
    }

    /** A comment to the end of the line. */
    method TakeLineComment(a: array<char>, line: nat, n: nat) returns (flow: Flow)
      requires Editing(a, line, n) && pos < line + n
      modifies this`buffer, this`mode, this`sent, this`pos, this`out, this`text
      ensures Editing(a, line, n)
      ensures Did(flow, LineCommentStep(env, src, old(pos) - line, old(Abs())), line)
    {
      FlushOut(a, line, n);
      if env.preserveComments {
        var startedWithNothing := buffer == [];
        TakeRest(a, line, n);
        if startedWithNothing {
          var quit := HandOn(a, line, n, LoneComment(buffer));
          if quit { return Return; }
        }
      }
      return Break;
    }

    /** The conditions of the comment branches, read from the line itself. */
    method SeesLineComment(a: array<char>, line: nat, n: nat) returns (b: bool)
      requires Editing(a, line, n) && pos < line + n
      ensures b == IsLineComment(env, Abs().text, src, pos - line)
    {
      var inchar := Peek(a, line, n, pos);
      assert text == [] <==> buffer == [] && out == line;
      b := inchar == '#'
           || (inchar == '-' && Peek(a, line, n, pos + 1) == '-'
               && (env.isSpace(Peek(a, line, n, pos + 2)) || Peek(a, line, n, pos + 2) == NUL
                   || (buffer == [] && out == line)));
    }

    method SeesOpen(a: array<char>, line: nat, n: nat) returns (b: bool)
      requires Editing(a, line, n) && pos < line + n
      ensures b == OpensComment(src, pos - line)
      ensures b ==> pos + 1 < line + n
    {
      b := Peek(a, line, n, pos) == '/' && Peek(a, line, n, pos + 1) == '*'
           && !(Peek(a, line, n, pos + 2) == '!'
                || (Peek(a, line, n, pos + 2) == 'M' && Peek(a, line, n, pos + 3) == '!'));
    }

    method SeesClose(a: array<char>, line: nat, n: nat) returns (b: bool)
      requires Editing(a, line, n) && pos < line + n
      ensures b == ClosesComment(src, pos - line)
      ensures b ==> pos + 1 < line + n
    {
      b := Peek(a, line, n, pos) == '*' && Peek(a, line, n, pos + 1) == '/';
    }

    /** The if-else chain of the loop. */
    method Classify(a: array<char>, line: nat, n: nat) returns (rule: Rule)
      requires Editing(a, line, n) && pos < line + n
      ensures rule == RuleAt(env, src, pos - line, Abs())
      ensures rule.Open? || rule.Close? ==> pos + 1 < line + n
    {
      var leading := SeesLeadingSpace(a, line, n);
      if leading { return LeadingSpace; }
      if !mlComment && Peek(a, line, n, pos) == '\\' && inString != '`'
         && !(inString == '"' && mode.ansiQuotes) && !(inString != NUL && mode.noBackslashEscapes)
      {
        return Escape;
      }
      if !mlComment && inString == NUL {
        var delimiter := PrefixHere(a, line, n, pos, mode.delimiter);
        if delimiter { return Delimiter; }
        var lineComment := SeesLineComment(a, line, n);
        if lineComment { return ToLineEnd; }
      }
      rule := ClassifyComment(a, line, n);
    }

    method SeesLeadingSpace(a: array<char>, line: nat, n: nat) returns (b: bool)
      requires Editing(a, line, n) && pos < line + n
      ensures b == SkipsLeadingSpace(env, Abs(), src[pos - line])
    {
      assert text == [] <==> buffer == [] && out == line;
      b := !env.preserveComments && env.isSpace(Peek(a, line, n, pos)) && out == line && buffer == [];
    }

    method ClassifyComment(a: array<char>, line: nat, n: nat) returns (rule: Rule)
      requires Editing(a, line, n) && pos < line + n
      ensures rule == if inString == NUL && OpensComment(src, pos - line) then Open
                      else if mlComment && !ssComment && ClosesComment(src, pos - line) then Close
                      else Plain
      ensures rule.Open? || rule.Close? ==> pos + 1 < line + n
    {
      var open := SeesOpen(a, line, n);
      if inString == NUL && open { return Open; }
      var close := SeesClose(a, line, n);
      if mlComment && !ssComment && close { return Close; }
      return Plain;
    }

    /** One turn of the loop. */
    method OneStep(a: array<char>, line: nat, n: nat) returns (flow: Flow)
      requires Editing(a, line, n) && ValidEnv(env) && pos < line + n
      modifies this, a
      ensures Editing(a, line, n) && src == old(src) && orig == old(orig)
      ensures Did(flow, StepAt(env, src, old(pos) - line, old(Abs())), line)
    {
      hide EscapeStep, DelimiterStep, LineCommentStep, OpenStep, CloseStep, CharStep;
      flow := Continue;
      var rule := Classify(a, line, n);
      match rule {
        case LeadingSpace => pos := pos + 1;
        case Escape => flow := TakeEscape(a, line, n);
        case Delimiter => flow := TakeDelimiter(a, line, n);
        case ToLineEnd => flow := TakeLineComment(a, line, n);
        case Open => OpenComment(a, line, n);
        case Close => CloseComment(a, line, n);
        case Plain => TakeChar(a, line, n);
      }
    }

    /** Scanning on from here ends in goal. */
    ghost predicate Heading(line: nat, goal: Outcome)
      reads this
    {
      pos >= line && ScanFrom(env, src, pos - line, Abs()) == goal
    }

    ghost predicate Arrived(quit: bool, goal: Outcome)
      reads this
    {
      goal == if quit then Quitting(Abs()) else Done(Abs())
    }

    /** What a branch did leads on to the goal. */
    static lemma FlowLeads(env: Env, s: seq<char>, i: nat, st: Scan, flow: Flow, j: nat, st1: Scan, goal: Outcome)
      requires i < |s| && ScanFrom(env, s, i, st) == goal
      requires match flow
        case Continue => StepAt(env, s, i, st) == Next(st1, j)
        case Break => StepAt(env, s, i, st) == Stop(st1)
        case Return => StepAt(env, s, i, st) == Quit(st1)
      ensures match flow
        case Continue => j > i && ScanFrom(env, s, j, st1) == goal
        case Break => Done(st1) == goal
        case Return => Quitting(st1) == goal
    {
      ScanStep(env, s, i, st, StepAt(env, s, i, st));
    }

    method Turn(a: array<char>, line: nat, n: nat, ghost goal: Outcome) returns (flow: Flow)
      requires Editing(a, line, n) && ValidEnv(env) && pos < line + n && Heading(line, goal)
      modifies this, a
      ensures Editing(a, line, n) && src == old(src) && orig == old(orig)
      ensures flow.Continue? ==> Heading(line, goal) && pos > old(pos)
      ensures flow.Break? ==> Arrived(false, goal)
      ensures flow.Return? ==> Arrived(true, goal)
    {
      hide StepAt, ScanFrom;
      ghost var i, st := pos - line, Abs();
      flow := OneStep(a, line, n);
      FlowLeads(env, src, i, st, flow, if pos < line then 0 else pos - line, Abs(), goal);
    }

    /** The loop over the line. */
    method ScanRest(a: array<char>, line: nat, n: nat, ghost goal: Outcome) returns (quit: bool)
      requires Editing(a, line, n) && ValidEnv(env) && Heading(line, goal)
      modifies this, a
      ensures Editing(a, line, n) && orig == old(orig)
      ensures Arrived(quit, goal)
    {
      while pos < line + n
        invariant Editing(a, line, n) && src == old(src) && orig == old(orig) && Heading(line, goal)
        decreases line + n - pos
      {
        var flow := Turn(a, line, n, goal);
        match flow {
          case Continue =>
          case Break => return false;
          case Return => return true;
        }
      }
      return false;
    }

    /** Outside the line (and its terminator, unless the line was cut) nothing was written. */
    ghost predicate Kept(a: array<char>, line: nat, n: nat, truncated: bool)
      reads this`orig, a
    {
      && |orig| == a.Length && line + n < a.Length
      && (forall k :: 0 <= k < a.Length && (k < line || line + n < k) ==> a[k] == orig[k])
      && (truncated ==> a[line + n] == NUL)
    }

    /** The part of the line that is not in the statement buffer yet. */
    method Waiting(a: array<char>, line: nat, n: nat) returns (chunk: seq<char>)
      requires Editing(a, line, n)
      ensures chunk == text[|buffer|..] && buffer + chunk == text && |chunk| == out - line
      ensures buffer == text[..|buffer|]
    {
      chunk := a[line..out];
    }

    /** Move the rest of the line's text, and its newline, to the statement buffer. */
    method EndLine(a: array<char>, line: nat, n: nat, truncated: bool)
      requires Editing(a, line, n)
      modifies this`buffer, this`out, a
      ensures Kept(a, line, n, truncated)
      ensures buffer == EndOfLine(env, old(Abs()), truncated)
    {
      var chunk := Waiting(a, line, n);
      if out != line || buffer != [] {
        var name := |chunk| >= DELIMITER_NAME_LEN && env.isDelimiterName(chunk[..DELIMITER_NAME_LEN]);
        if !truncated && (!name || inString != NUL || mlComment) {
          a[out] := '\n';
          out := out + 1;
          chunk := chunk + ['\n'];
          assert buffer + chunk == text + ['\n'];
        }
        assert chunk == a[line..out];
        if !mlComment || env.preserveComments {
          buffer := buffer + a[line..out];
        }
      }
    }

    /**
      add_line: the in-place edit leaves exactly what the scanner says of the line as it was
      given, and touches nothing outside the line and its terminator.
     */
    method AddLine(a: array<char>, line: nat, n: nat, truncated: bool) returns (quit: bool)
      requires ValidEnv(env) && line + n < a.Length
      requires a[line + n] == NUL && NUL !in a[line..line + n]
      modifies this, a
      ensures Between().(quit := quit) == ScanLine(env, old(Between()), old(a[line..line + n]), truncated)
      ensures forall k :: 0 <= k < a.Length && (k < line || line + n < k) ==> a[k] == old(a[k])
      ensures truncated ==> a[line + n] == NUL
    {
      if n == 0 && buffer == [] { return false; }
      ghost var c := Between();
      Begin(a, line, n);
      ghost var s := src;
      ghost var goal := ScanFrom(env, s, 0, Start(c));
      quit := ScanRest(a, line, n, goal);
      ScanLineResult(env, c, s, truncated, goal);
      if quit {
        assert buffer == text[..|buffer|];
      } else {
        EndLine(a, line, n, truncated);
      }
    }

    method Begin(a: array<char>, line: nat, n: nat)
      requires line + n < a.Length && a[line + n] == NUL && NUL !in a[line..line + n]
      modifies this
      ensures Editing(a, line, n) && pos == line && src == a[line..line + n] && orig == a[..]
      ensures Abs() == Start(old(Between()))
    {
      ssComment, needSpace, pos, out := false, false, line, line;
      text, src, orig := buffer, a[line..line + n], a[..];
    }

    /** A client command that takes up a whole line. */
    method RunCommand(line: seq<char>) returns (quit: bool)
      modifies this`sent, this`buffer, this`mode
      ensures sent == old(sent) + [LineCommand(line, old(buffer))]
      ensures buffer == env.reply(sent).buffer && mode == env.reply(sent).mode && quit == env.reply(sent).quit
    {
      sent := sent + [LineCommand(line, buffer)];
      var r := env.reply(sent);
      buffer, mode, quit := r.buffer, r.mode, r.quit;
    }
  }
}
