/**
  What the splitter makes of the things that people write in scripts, said in the characters
  themselves: statements, strings, comments that are removed or kept, comments that are hints
  for the server, one-character commands, and the delimiter. Most laws hold at any place of
  any line, so that they compose along the line.
 */
module Splitting {
  import opened Shared
  import opened Scanner

  /** The word w stands in s at position i. */
  predicate Starts(s: seq<char>, i: nat, w: seq<char>) {
    i <= |s| && w <= s[i..]
  }

  /** The word w stands nowhere from i up to k. */
  predicate Nowhere(s: seq<char>, i: nat, k: nat, w: seq<char>) {
    forall j :: i <= j < k ==> !Starts(s, j, w)
  }

  /** A comment that the client must leave to the server. */
  predicate StartsHint(s: seq<char>, i: nat) {
    Starts(s, i, "/*!") || Starts(s, i, "/*M!")
  }

  /** A number sign, or two dashes followed by white space or the end of the line. */
  predicate StartsLineComment(env: Env, s: seq<char>, i: nat) {
    || Starts(s, i, "#")
    || (Starts(s, i, "--") && (i + 2 == |s| || s[i + 2] == NUL || env.isSpace(s[i + 2])))
  }

  /** A character that means nothing to the splitter. */
  predicate Ordinary(env: Env, d: seq<char>, s: seq<char>, i: nat)
    requires i < |s|
  {
    && s[i] !in ['\\', '\'', '"', '`'] && !Starts(s, i, d) && !StartsLineComment(env, s, i)
    && (Starts(s, i, "/*") ==> StartsHint(s, i))
  }

  /** A statement can start here: white space would be dropped, and two dashes taken for a comment. */
  predicate Begins(env: Env, s: seq<char>, i: nat)
    requires i < |s|
  {
    !Starts(s, i, "--") && (env.isSpace(s[i]) ==> env.preserveComments)
  }

  /** The text from i up to k, which may be the first of a statement, means nothing to the splitter. */
  predicate Words(env: Env, d: seq<char>, s: seq<char>, i: nat, k: nat, first: bool)
    requires i <= k <= |s|
  {
    (first && i < k ==> Begins(env, s, i)) && forall j :: i <= j < k ==> Ordinary(env, d, s, j)
  }

  /** The marks that the splitter looks for are not white space. */
  predicate ProperSpace(env: Env) {
    ValidEnv(env) && forall c :: c in ['/', '*', '\'', '"', '`', '\\', '#', '-'] ==> !env.isSpace(c)
  }

  predicate Outside(st: Scan) {
    st.quote == NUL && !st.inComment
  }

  lemma StartsAt(s: seq<char>, i: nat)
    ensures Starts(s, i, "#") <==> At(s, i) == '#'
    ensures Starts(s, i, "/*") <==> At(s, i) == '/' && At(s, i + 1) == '*'
    ensures Starts(s, i, "*/") <==> At(s, i) == '*' && At(s, i + 1) == '/'
    ensures Starts(s, i, "--") <==> At(s, i) == '-' && At(s, i + 1) == '-'
    ensures Starts(s, i, "/*!") <==> Starts(s, i, "/*") && At(s, i + 2) == '!'
    ensures Starts(s, i, "/*M!") <==> Starts(s, i, "/*") && At(s, i + 2) == 'M' && At(s, i + 3) == '!'
  {
  }

  lemma StartsPrefix(s: seq<char>, i: nat, d: seq<char>)
    ensures Starts(s, i, d) <==> PrefixAt(s, i, d)
  {
  }

  // --- statements

  lemma OrdinaryStep(env: Env, s: seq<char>, i: nat, st: Scan)
    requires Outside(st) && !st.needSpace && i < |s| && Ordinary(env, st.mode.delimiter, s, i)
    requires st.text == [] ==> Begins(env, s, i)
    ensures StepAt(env, s, i, st) == Next(Accept(st, [s[i]]).(inServerComment := NextServerComment(st, s, i)), i + 1)
  {
    StartsAt(s, i);
    StartsPrefix(s, i, st.mode.delimiter);
    hide Starts, PrefixAt;
    assert RuleAt(env, s, i, st) == Plain;
  }

  lemma AcceptNothing(st: Scan, s: seq<char>, i: nat)
    requires i <= |s|
    ensures Accept(st, s[i..i]) == st
  {
    assert st.text + s[i..i] == st.text;
  }

  /** Position k is inside a hint: one that was opened from i on or before, and is not closed. */
  predicate InHint(s: seq<char>, i: nat, k: nat, server: bool) {
    (server && Nowhere(s, i, k, "*/")) || exists j :: i <= j < k && Starts(s, j, "/*!") && Nowhere(s, j, k, "*/")
  }

  lemma InHintStep(s: seq<char>, i: nat, k: nat, st: Scan)
    requires i < k && st.quote == NUL
    ensures InHint(s, i + 1, k, NextServerComment(st, s, i)) <==> InHint(s, i, k, st.inServerComment)
  {
    StartsAt(s, i);
    assert !(Starts(s, i, "/*!") && Starts(s, i, "*/"));
    assert Nowhere(s, i, k, "*/") <==> !Starts(s, i, "*/") && Nowhere(s, i + 1, k, "*/");
    hide Starts;
  }

  /** The state after text was taken as it is from i up to k. */
  function Taken(st: Scan, s: seq<char>, i: nat, k: nat): Scan
    requires i <= k <= |s|
  {
    Accept(st, s[i..k]).(inServerComment := InHint(s, i, k, st.inServerComment))
  }

  lemma TakenMore(st: Scan, s: seq<char>, i: nat, k: nat)
    requires i < k <= |s| && st.quote == NUL
    ensures var st1 := Accept(st, [s[i]]).(inServerComment := NextServerComment(st, s, i));
      Taken(st1, s, i + 1, k) == Taken(st, s, i, k)
  {
    InHintStep(s, i, k, st);
    hide InHint, NextServerComment;
    assert s[i..k] == [s[i]] + s[i + 1..k];
    Associate(st.text, [s[i]], s[i + 1..k]);
  }

  /** Words are taken as they are. */
  lemma {:induction false} WordsAreKept(env: Env, s: seq<char>, i: nat, k: nat, st: Scan)
    requires Outside(st) && !st.needSpace && i <= k <= |s| && Words(env, st.mode.delimiter, s, i, k, st.text == [])
    ensures ScanFrom(env, s, i, st) == ScanFrom(env, s, k, Taken(st, s, i, k))
    decreases k - i
  {
    if i == k {
      AcceptNothing(st, s, i);
    } else {
      hide Ordinary, StepAt, NextServerComment, Begins;
      OrdinaryStep(env, s, i, st);
      var st1 := Accept(st, [s[i]]).(inServerComment := NextServerComment(st, s, i));
      ScanStep(env, s, i, st, Next(st1, i + 1));
      TakenMore(st, s, i, k);
      hide ScanFrom, Taken;
      WordsAreKept(env, s, i + 1, k, st1);
    }
  }

  /** The space that is due behind a comment is put before words, unless they start with white space. */
  lemma DueSpace(env: Env, s: seq<char>, i: nat, st: Scan)
    requires Outside(st) && st.needSpace && i < |s| && Ordinary(env, st.mode.delimiter, s, i)
    requires st.text == [] ==> Begins(env, s, i)
    ensures var space := if env.isSpace(s[i]) then [] else [' '];
      ScanFrom(env, s, i, st) == ScanFrom(env, s, i, Accept(st, space).(needSpace := false))
  {
    var st1 := Accept(st, if env.isSpace(s[i]) then [] else [' ']).(needSpace := false);
    StartsAt(s, i);
    StartsPrefix(s, i, st.mode.delimiter);
    hide Starts, PrefixAt;
    assert RuleAt(env, s, i, st) == Plain && RuleAt(env, s, i, st1) == Plain;
    hide RuleAt;
    assert st1.text + ([] + [s[i]]) == st.text + ((if env.isSpace(s[i]) then [] else [' ']) + [s[i]]);
    ScanStep(env, s, i, st, CharStep(env, s, i, st));
    ScanStep(env, s, i, st1, CharStep(env, s, i, st1));
  }

  lemma AtDelimiterStep(env: Env, s: seq<char>, i: nat, st: Scan)
    requires Outside(st) && Starts(s, i, st.mode.delimiter) && st.mode.delimiter[0] != '\\'
    requires !env.preserveComments && st.text == [] ==> !env.isSpace(s[i])
    ensures i < |s| && PrefixAt(s, i, st.mode.delimiter) && StepAt(env, s, i, st) == DelimiterStep(env, s, i, st)
  {
    StartsPrefix(s, i, st.mode.delimiter);
    assert s[i] == st.mode.delimiter[0];
    assert RuleAt(env, s, i, st) == Delimiter;
  }

  lemma PlainDelimiterStep(env: Env, s: seq<char>, i: nat, st: Scan)
    requires i < |s| && PrefixAt(s, i, st.mode.delimiter) && !env.preserveComments
    ensures var sent := st.sent + [Statement(st.text)]; var r := env.reply(sent);
      DelimiterStep(env, s, i, st) ==
        if r.quit then Quit(st.(sent := sent, mark := |st.text|))
        else Next(st.(sent := sent, text := [], mark := 0, mode := r.mode), i + |st.mode.delimiter|)
  {
    AcceptNothing(st, s, i + |st.mode.delimiter|);
    hide PrefixAt;
  }

  /** A statement is sent as it is, and the next one starts behind the delimiter. */
  lemma DelimiterSends(env: Env, s: seq<char>, i: nat, st: Scan)
    requires Outside(st) && Starts(s, i, st.mode.delimiter) && st.mode.delimiter[0] != '\\' && !env.preserveComments
    requires st.text == [] ==> !env.isSpace(s[i])
    ensures var sent := st.sent + [Statement(st.text)]; var r := env.reply(sent);
      ScanFrom(env, s, i, st) ==
        if r.quit then Quitting(st.(sent := sent, mark := |st.text|))
        else ScanFrom(env, s, i + |st.mode.delimiter|, st.(sent := sent, text := [], mark := 0, mode := r.mode))
  {
    hide *;
    AtDelimiterStep(env, s, i, st);
    PlainDelimiterStep(env, s, i, st);
    ScanStep(env, s, i, st, DelimiterStep(env, s, i, st));
  }

  /** Where comments are kept, white space and a comment behind the delimiter go with the statement. */
  lemma DelimiterKeepsComment(env: Env, s: seq<char>, i: nat, k: nat, st: Scan)
    requires Outside(st) && Starts(s, i, st.mode.delimiter) && st.mode.delimiter[0] != '\\' && env.preserveComments
    requires ValidEnv(env) && i + |st.mode.delimiter| <= k <= |s| && (k < |s| ==> !env.isSpace(s[k]))
    requires forall j :: i + |st.mode.delimiter| <= j < k ==> env.isSpace(s[j])
    ensures
      var comment := Starts(s, k, "#") || (Starts(s, k, "--") && k + 2 < |s| && env.isSpace(s[k + 2]));
      var e := if comment then |s| else k;
      var text := st.text + s[i + |st.mode.delimiter|..e];
      var sent := st.sent + [Statement(text)]; var r := env.reply(sent);
      ScanFrom(env, s, i, st) ==
        if r.quit then Quitting(st.(sent := sent, text := text, mark := |text|))
        else ScanFrom(env, s, e, st.(sent := sent, text := [], mark := 0, mode := r.mode))
  {
    AtDelimiterStep(env, s, i, st);
    StartsAt(s, k);
    SpacesEnd(env, s, i + |st.mode.delimiter|, k);
    hide StepAt, Starts, PrefixAt;
    ScanStep(env, s, i, st, DelimiterStep(env, s, i, st));
  }

  lemma {:induction false} SpacesEnd(env: Env, s: seq<char>, i: nat, k: nat)
    requires i <= k <= |s| && (k < |s| ==> !env.isSpace(s[k])) && forall j :: i <= j < k ==> env.isSpace(s[j])
    ensures SkipSpaces(env.isSpace, s, i) == k
    decreases k - i
  {
    if i < k { SpacesEnd(env, s, i + 1, k); }
  }

  // --- block comments

  /** A block comment from i up to e. */
  predicate Remark(s: seq<char>, i: nat, e: nat) {
    && i + 4 <= e <= |s| && Starts(s, i, "/*") && !StartsHint(s, i)
    && Starts(s, e - 2, "*/") && Nowhere(s, i + 2, e - 2, "*/") && Nowhere(s, i + 2, e - 2, "/*")
  }

  /** What is left of a stretch of a comment. */
  function Left(env: Env, st: Scan, more: seq<char>): Scan {
    if env.preserveComments then Accept(st, more) else st
  }

  lemma InsideStep(env: Env, s: seq<char>, i: nat, st: Scan)
    requires st.quote == NUL && st.inComment && !st.inServerComment && (env.preserveComments ==> !st.needSpace)
    requires i < |s| && !Starts(s, i, "*/") && !Starts(s, i, "/*")
    ensures StepAt(env, s, i, st) == Next(Left(env, st, [s[i]]), i + 1)
  {
    StartsAt(s, i);
    hide Starts;
    assert RuleAt(env, s, i, st) in {LeadingSpace, Plain};
  }

  lemma {:induction false} InsideComment(env: Env, s: seq<char>, i: nat, k: nat, st: Scan)
    requires st.quote == NUL && st.inComment && !st.inServerComment && (env.preserveComments ==> !st.needSpace)
    requires i <= k <= |s| && Nowhere(s, i, k, "*/") && Nowhere(s, i, k, "/*")
    ensures ScanFrom(env, s, i, st) == ScanFrom(env, s, k, Left(env, st, s[i..k]))
    decreases k - i
  {
    if i == k {
      assert s[i..k] == [] && st.text + [] == st.text;
    } else {
      InsideStep(env, s, i, st);
      hide StepAt, Starts;
      var st1 := Left(env, st, [s[i]]);
      ScanStep(env, s, i, st, Next(st1, i + 1));
      hide ScanFrom;
      InsideComment(env, s, i + 1, k, st1);
      assert s[i..k] == [s[i]] + s[i + 1..k];
      Associate(st.text, [s[i]], s[i + 1..k]);
    }
  }

  lemma OpenComment(env: Env, s: seq<char>, i: nat, st: Scan)
    requires ProperSpace(env) && Outside(st) && Starts(s, i, "/*") && !StartsHint(s, i)
    requires !Starts(s, i, st.mode.delimiter)
    ensures var st' := Left(env, st, "/*");
      ScanFrom(env, s, i, st) == ScanFrom(env, s, i + 2, st'.(inComment := true, mark := |st'.text|))
  {
    StartsAt(s, i);
    StartsPrefix(s, i, st.mode.delimiter);
    hide Starts, PrefixAt;
    assert RuleAt(env, s, i, st) == Open;
    hide RuleAt;
    ScanStep(env, s, i, st, OpenStep(env, i, st));
  }

  lemma CloseComment(env: Env, s: seq<char>, i: nat, st: Scan)
    requires ProperSpace(env) && st.quote == NUL && st.inComment && !st.inServerComment && Starts(s, i, "*/")
    ensures var st' := Left(env, st, "*/");
      ScanFrom(env, s, i, st) ==
        ScanFrom(env, s, i + 2, st'.(inComment := false, needSpace := true, mark := |st'.text|))
  {
    StartsAt(s, i);
    hide Starts;
    assert RuleAt(env, s, i, st) == Close;
    hide RuleAt;
    ScanStep(env, s, i, st, CloseStep(env, i, st));
  }

  /** A block comment is removed, or kept as it is, and a space is due behind it. */
  lemma RemarkIsLeft(env: Env, s: seq<char>, i: nat, e: nat, st: Scan)
    requires ProperSpace(env) && Outside(st) && !st.inServerComment && (env.preserveComments ==> !st.needSpace)
    requires Remark(s, i, e) && !Starts(s, i, st.mode.delimiter)
    ensures var st' := Left(env, st, s[i..e]);
      ScanFrom(env, s, i, st) == ScanFrom(env, s, e, st'.(needSpace := true, mark := |st'.text|))
  {
    hide Starts, StartsHint, Nowhere, ScanFrom, ProperSpace;
    OpenComment(env, s, i, st);
    var st1 := Left(env, st, "/*");
    var st2 := st1.(inComment := true, mark := |st1.text|);
    InsideComment(env, s, i + 2, e - 2, st2);
    CloseComment(env, s, e - 2, Left(env, st2, s[i + 2..e - 2]));
    RemarkParts(s, i, e);
    Associate(st.text, "/*", s[i + 2..e - 2]);
    Regroup(st.text, "/*", s[i + 2..e - 2], "*/");
  }

  lemma RemarkParts(s: seq<char>, i: nat, e: nat)
    requires Remark(s, i, e)
    ensures s[i..e] == "/*" + (s[i + 2..e - 2] + "*/")
  {
    StartsAt(s, i);
    StartsAt(s, e - 2);
  }

  // --- comments to the end of the line

  /** Such a comment ends the line: it is removed, kept, or sent by itself if nothing comes before it. */
  lemma LineCommentIsLeft(env: Env, s: seq<char>, i: nat, st: Scan)
    requires ProperSpace(env) && Outside(st) && !Starts(s, i, st.mode.delimiter)
    requires StartsLineComment(env, s, i) || (st.text == [] && Starts(s, i, "--"))
    ensures var text := st.text + s[i..]; var sent := st.sent + [LoneComment(s[i..])]; var r := env.reply(sent);
      ScanFrom(env, s, i, st) ==
        if !env.preserveComments then Done(st.(mark := |st.text|))
        else if st.text != [] then Done(st.(text := text, mark := |text|))
        else if r.quit then Quitting(st.(text := s[i..], mark := |s[i..]|, sent := sent))
        else Done(st.(text := [], mark := 0, sent := sent, mode := r.mode))
  {
    StartsAt(s, i);
    StartsPrefix(s, i, st.mode.delimiter);
    hide Starts, PrefixAt;
    assert RuleAt(env, s, i, st) == ToLineEnd;
    hide RuleAt;
    assert [] + s[i..] == s[i..];
    ScanStep(env, s, i, st, LineCommentStep(env, s, i, st));
  }

  // --- strings

  /** A backslash escapes in strings with this quote. */
  predicate Escaping(mode: Mode, q: char) {
    q != '`' && !(q == '"' && mode.ansiQuotes) && !mode.noBackslashEscapes
  }

  /** The inside of a string: no quote but behind a backslash, where that escapes. */
  predicate Inner(t: seq<char>, q: char, escaping: bool) {
    t == [] ||
    if escaping && t[0] == '\\' then |t| >= 2 && t[1] != NUL && Inner(t[2..], q, escaping)
    else t[0] != q && Inner(t[1..], q, escaping)
  }

  lemma StringStep(env: Env, s: seq<char>, i: nat, st: Scan, n: nat)
    requires st.quote in ['\'', '"', '`'] && !st.inComment && !st.needSpace && st.text != []
    requires i + n <= |s| && (if Escaping(st.mode, st.quote) && At(s, i) == '\\' then n == 2 && At(s, i + 1) != NUL
                             else n == 1 && At(s, i) != st.quote)
    ensures StepAt(env, s, i, st) == Next(Accept(st, s[i..i + n]), i + n)
  {
    assert RuleAt(env, s, i, st) == if n == 2 then Escape else Plain;
    assert s[i..i + n] == if n == 2 then ['\\', s[i + 1]] else [s[i]];
  }

  lemma {:induction false} InsideString(env: Env, s: seq<char>, i: nat, k: nat, st: Scan)
    requires st.quote in ['\'', '"', '`'] && !st.inComment && !st.needSpace && st.text != []
    requires i <= k <= |s| && Inner(s[i..k], st.quote, Escaping(st.mode, st.quote))
    ensures ScanFrom(env, s, i, st) == ScanFrom(env, s, k, Accept(st, s[i..k]))
    decreases k - i
  {
    if i == k {
      assert s[i..k] == [] && st.text + [] == st.text;
    } else {
      var n := if Escaping(st.mode, st.quote) && s[i] == '\\' then 2 else 1;
      assert s[i..k][n..] == s[i + n..k] && s[i..k] == s[i..i + n] + s[i + n..k];
      StringStep(env, s, i, st, n);
      hide StepAt, Escaping;
      var st1 := Accept(st, s[i..i + n]);
      ScanStep(env, s, i, st, Next(st1, i + n));
      hide ScanFrom;
      InsideString(env, s, i + n, k, st1);
      Associate(st.text, s[i..i + n], s[i + n..k]);
    }
  }

  lemma QuoteStep(env: Env, s: seq<char>, i: nat, st: Scan)
    requires ProperSpace(env) && Outside(st) && !st.needSpace && i < |s| && s[i] in ['\'', '"', '`']
    requires !Starts(s, i, st.mode.delimiter)
    ensures StepAt(env, s, i, st) == Next(Accept(st, [s[i]]).(quote := s[i]), i + 1)
  {
    StartsPrefix(s, i, st.mode.delimiter);
    hide PrefixAt, Starts;
    assert RuleAt(env, s, i, st) == Plain;
  }

  lemma UnquoteStep(env: Env, s: seq<char>, i: nat, st: Scan)
    requires st.quote in ['\'', '"', '`'] && !st.inComment && !st.needSpace && st.text != []
    requires i < |s| && s[i] == st.quote
    ensures StepAt(env, s, i, st) == Next(Accept(st, [s[i]]).(quote := NUL), i + 1)
  {
    assert RuleAt(env, s, i, st) == Plain;
  }

  /** A string is taken as it is, whatever is inside it. */
  lemma StringIsKept(env: Env, s: seq<char>, i: nat, k: nat, st: Scan)
    requires ProperSpace(env) && Outside(st) && !st.needSpace && i < k < |s| && !Starts(s, i, st.mode.delimiter)
    requires s[i] in ['\'', '"', '`'] && s[k] == s[i] && Inner(s[i + 1..k], s[i], Escaping(st.mode, s[i]))
    ensures ScanFrom(env, s, i, st) == ScanFrom(env, s, k + 1, Accept(st, s[i..k + 1]))
  {
    hide Starts, StepAt, Inner, Escaping;
    QuoteStep(env, s, i, st);
    var st1 := Accept(st, [s[i]]).(quote := s[i]);
    ScanStep(env, s, i, st, Next(st1, i + 1));
    var st2 := Accept(st1, s[i + 1..k]);
    UnquoteStep(env, s, k, st2);
    ScanStep(env, s, k, st2, Next(Accept(st2, [s[k]]).(quote := NUL), k + 1));
    hide ScanFrom, ProperSpace;
    InsideString(env, s, i + 1, k, st1);
    assert s[i..k + 1] == [s[i]] + (s[i + 1..k] + [s[k]]);
    Associate(st.text, [s[i]], s[i + 1..k]);
    Regroup(st.text, [s[i]], s[i + 1..k], [s[k]]);
  }

  // --- one-character commands

  /** Where a line goes on behind a command at i: at the end of the hint it is in, or behind the next delimiter. */
  predicate CommandEnds(env: Env, s: seq<char>, i: nat, k: nat, server: bool, d: seq<char>)
    requires i + 1 < |s|
  {
    if !env.takesParams(s[i + 1]) then k == i + 2
    else if server then i + 2 <= k <= |s| && Nowhere(s, i + 2, k, "*/") && (k == |s| || Starts(s, k, "*/"))
    else
      || (k == |s| && Nowhere(s, i + 2, k, d))
      || (i + 2 + |d| <= k && Starts(s, k - |d|, d) && Nowhere(s, i + 2, k - |d|, d))
  }

  lemma {:induction false} DelimiterFound(s: seq<char>, i: nat, d: seq<char>)
    requires i <= |s|
    ensures var k := FindDelimiter(s, i, d); Nowhere(s, i, k, d) && (k == |s| || Starts(s, k, d))
    decreases |s| - i
  {
    StartsPrefix(s, i, d);
    hide Starts, PrefixAt;
    if i < |s| && !PrefixAt(s, i, d) { DelimiterFound(s, i + 1, d); }
  }

  lemma {:induction false} CloseFound(s: seq<char>, i: nat)
    requires i <= |s|
    ensures var k := FindClose(s, i); Nowhere(s, i, k, "*/") && (k == |s| || Starts(s, k, "*/"))
    decreases |s| - i
  {
    StartsAt(s, i);
    hide Starts;
    if i < |s| && !ClosesComment(s, i) { CloseFound(s, i + 1); }
  }

  lemma CommandEndFound(env: Env, s: seq<char>, i: nat, server: bool, d: seq<char>)
    requires i + 1 < |s| && d != []
    ensures CommandEnds(env, s, i, AfterShortCommand(env, s, i, server, d), server, d)
  {
    DelimiterFound(s, i + 2, d);
    CloseFound(s, i + 2);
    hide Nowhere, Starts;
  }

  /** A command runs on the text before it, with the rest of the line; its parameters belong to no statement. */
  lemma CommandRuns(env: Env, s: seq<char>, i: nat, st: Scan) returns (k: nat)
    requires ProperSpace(env) && Outside(st) && i + 1 < |s| && s[i] == '\\'
    requires s[i + 1] != 'N' && s[i + 1] != NUL && env.isShortCommand(s[i + 1])
    ensures var sent := st.sent + [ShortCommand(s[i + 1], s[i..], st.text)]; var r := env.reply(sent);
      var st' := st.(sent := sent, text := r.buffer, mark := |r.buffer|, mode := r.mode);
      if r.quit then ScanFrom(env, s, i, st) == Quitting(st')
      else CommandEnds(env, s, i, k, st.inServerComment, r.mode.delimiter)
           && ScanFrom(env, s, i, st) == ScanFrom(env, s, k, st')
  {
    var d := env.reply(st.sent + [ShortCommand(s[i + 1], s[i..], st.text)]).mode.delimiter;
    k := AfterShortCommand(env, s, i, st.inServerComment, d);
    CommandEndFound(env, s, i, st.inServerComment, d);
    assert RuleAt(env, s, i, st) == Escape;
    hide RuleAt, AfterShortCommand, CommandEnds;
    ScanStep(env, s, i, st, ShortCommandStep(env, s, i, st));
  }

  /** NULL written as a pair is kept, and so is a command that does not exist, which is reported. */
  lemma PairIsKept(env: Env, s: seq<char>, i: nat, st: Scan)
    requires ProperSpace(env) && Outside(st) && i + 1 < |s| && s[i] == '\\'
    requires s[i + 1] != NUL && (s[i + 1] != 'N' ==> !env.isShortCommand(s[i + 1]))
    ensures var c := s[i + 1];
      var st' := if c == 'N' then st else st.(sent := st.sent + [UnknownCommand(c)]);
      ScanFrom(env, s, i, st) ==
        if c != 'N' && env.reply(st'.sent).quit then Quitting(st') else ScanFrom(env, s, i + 2, Accept(st', ['\\', c]))
  {
    assert RuleAt(env, s, i, st) == Escape;
    hide RuleAt;
    ScanStep(env, s, i, st, EscapeStep(env, s, i, st));
  }

  /** A backslash that nothing follows is left out and ends the line, in a string too if it can escape there. */
  lemma LoneBackslashEnds(env: Env, s: seq<char>, i: nat, st: Scan)
    requires ProperSpace(env) && i < |s| && s[i] == '\\' && (i + 1 == |s| || s[i + 1] == NUL) && !st.inComment
    requires st.quote == NUL || (st.quote in ['\'', '"', '`'] && Escaping(st.mode, st.quote))
    ensures ScanFrom(env, s, i, st) == Done(st)
  {
    assert RuleAt(env, s, i, st) == Escape;
    hide RuleAt;
    ScanStep(env, s, i, st, Stop(st));
  }

  // --- whole lines

  /** White space before a statement is dropped. */
  lemma {:induction false} WhiteIsDropped(env: Env, s: seq<char>, i: nat, k: nat, st: Scan)
    requires !env.preserveComments && st.text == [] && i <= k <= |s| && forall j :: i <= j < k ==> env.isSpace(s[j])
    ensures ScanFrom(env, s, i, st) == ScanFrom(env, s, k, st)
    decreases k - i
  {
    if i < k {
      assert RuleAt(env, s, i, st) == LeadingSpace;
      hide RuleAt;
      ScanStep(env, s, i, st, Next(st, i + 1));
      hide ScanFrom;
      WhiteIsDropped(env, s, i + 1, k, st);
    }
  }

  predicate Clear(c: Carry) {
    c.quote == NUL && !c.inComment
  }

  /** A line of words is collected with its newline, unless it would be read as a DELIMITER command. */
  lemma LineIsCollected(env: Env, c: Carry, s: seq<char>, truncated: bool)
    requires Clear(c) && s != [] && Words(env, c.mode.delimiter, s, 0, |s|, c.text == [])
    ensures var newline := !truncated && !(|s| >= 9 && env.isDelimiterName(s[..9]));
      ScanLine(env, c, s, truncated) == c.(text := c.text + s + (if newline then ['\n'] else []), quit := false)
  {
    var st := Taken(Start(c), s, 0, |s|);
    WordsAreKept(env, s, 0, |s|, Start(c));
    hide Words, InHint;
    assert s[0..|s|] == s && st.text[st.mark..] == s;
    ScanLineResult(env, c, s, truncated, Done(st));
    assert c.text + s + [] == c.text + s;
  }

  /** A line inside a block comment that is removed changes nothing. */
  lemma CommentLineIsDropped(env: Env, c: Carry, s: seq<char>, truncated: bool)
    requires c.quote == NUL && c.inComment && !env.preserveComments
    requires Nowhere(s, 0, |s|, "*/") && Nowhere(s, 0, |s|, "/*")
    ensures ScanLine(env, c, s, truncated) == if s == [] && c.text == [] then c else c.(quit := false)
  {
    if !(s == [] && c.text == []) {
      InsideComment(env, s, 0, |s|, Start(c));
      hide Nowhere;
      ScanLineResult(env, c, s, truncated, Done(Start(c)));
      assert c.text[..|c.text|] == c.text;
    }
  }

  /** A block comment that is a line by itself leaves nothing but, inside a statement, the newline. */
  lemma RemarkLineIsDropped(env: Env, c: Carry, s: seq<char>, truncated: bool)
    requires ProperSpace(env) && Clear(c) && !env.preserveComments && Remark(s, 0, |s|)
    requires !Starts(s, 0, c.mode.delimiter)
    ensures ScanLine(env, c, s, truncated) ==
      c.(text := if c.text == [] || truncated then c.text else c.text + ['\n'], quit := false)
  {
    var st := Start(c).(needSpace := true);
    RemarkIsLeft(env, s, 0, |s|, Start(c));
    hide Remark, Starts;
    ScanLineResult(env, c, s, truncated, Done(st));
    assert st.text[st.mark..] == [];
  }

  /** The delimiter at the end of a line. */
  lemma DelimiterEnds(env: Env, s: seq<char>, i: nat, st: Scan)
    requires ValidEnv(env) && Outside(st) && Starts(s, i, st.mode.delimiter) && st.mode.delimiter[0] != '\\'
    requires i + |st.mode.delimiter| == |s| && st.text != []
    ensures var sent := st.sent + [Statement(st.text)]; var r := env.reply(sent);
      ScanFrom(env, s, i, st) ==
        if r.quit then Quitting(st.(sent := sent, mark := |st.text|))
        else Done(st.(sent := sent, text := [], mark := 0, mode := r.mode))
  {
    if env.preserveComments {
      DelimiterKeepsComment(env, s, i, |s|, st);
      assert st.text + s[|s|..|s|] == st.text;
    } else {
      DelimiterSends(env, s, i, st);
    }
  }

  /** What follows a statement that is sent at the end of a line. */
  function AfterStatement(env: Env, c: Carry, text: seq<char>): Carry {
    var sent := c.sent + [Statement(text)];
    var r := env.reply(sent);
    if r.quit then c.(text := text, sent := sent, quit := true)
    else c.(text := [], sent := sent, mode := r.mode, quit := false)
  }

  /** A line of words before the delimiter completes the statement, which is sent as it was written. */
  lemma StatementIsSent(env: Env, c: Carry, words: seq<char>, truncated: bool)
    requires ValidEnv(env) && Clear(c) && c.mode.delimiter[0] != '\\' && c.text + words != []
    requires Words(env, c.mode.delimiter, words + c.mode.delimiter, 0, |words|, c.text == [])
    ensures ScanLine(env, c, words + c.mode.delimiter, truncated) == AfterStatement(env, c, c.text + words)
  {
    var s := words + c.mode.delimiter;
    WordsAreKept(env, s, 0, |words|, Start(c));
    assert s[0..|words|] == words && s[|words|..] == c.mode.delimiter;
    var st := Taken(Start(c), s, 0, |words|);
    hide Words, InHint;
    DelimiterEnds(env, s, |words|, st);
    hide ScanFrom;
    ScanLineResult(env, c, s, truncated, ScanFrom(env, s, |words|, st));
    assert st.text[..|st.text|] == st.text;
  }

  /** Statements stand one behind the other, each with the delimiter, up to the end of the line. */
  predicate InARow(env: Env, d: seq<char>, s: seq<char>, i: nat, statements: seq<seq<char>>)
    decreases |statements|
  {
    if statements == [] then i == |s|
    else
      var k := i + |statements[0]|;
      && i < k <= |s| && s[i..k] == statements[0] && Words(env, d, s, i, k, true) && Starts(s, k, d)
      && InARow(env, d, s, k + |d|, statements[1..])
  }

  function AsStatements(texts: seq<seq<char>>): seq<Event> {
    if texts == [] then [] else [Statement(texts[0])] + AsStatements(texts[1..])
  }

  /** However the client replies, it goes on in this mode. */
  ghost predicate Steady(env: Env, mode: Mode) {
    forall sent :: !env.reply(sent).quit && env.reply(sent).mode == mode
  }

  lemma SteadyReply(env: Env, mode: Mode, sent: seq<Event>)
    requires Steady(env, mode)
    ensures !env.reply(sent).quit && env.reply(sent).mode == mode
  {
  }

  lemma FirstTaken(st: Scan, s: seq<char>, i: nat, k: nat)
    requires i <= k <= |s| && st.text == []
    ensures Taken(st, s, i, k) == st.(text := s[i..k], inServerComment := InHint(s, i, k, st.inServerComment))
  {
    assert [] + s[i..k] == s[i..k];
  }

  lemma OneInARow(env: Env, s: seq<char>, i: nat, k: nat, st: Scan)
    requires !env.preserveComments && Steady(env, st.mode) && st.mode.delimiter[0] != '\\'
    requires Outside(st) && !st.needSpace && st.text == [] && i < k <= |s|
    requires Words(env, st.mode.delimiter, s, i, k, true) && Starts(s, k, st.mode.delimiter)
    ensures ScanFrom(env, s, i, st) == ScanFrom(env, s, k + |st.mode.delimiter|,
      st.(sent := st.sent + [Statement(s[i..k])], mark := 0, inServerComment := InHint(s, i, k, st.inServerComment)))
  {
    hide Steady, InHint, ScanFrom, Starts, Words, Taken, Accept;
    SteadyReply(env, st.mode, st.sent + [Statement(s[i..k])]);
    WordsAreKept(env, s, i, k, st);
    FirstTaken(st, s, i, k);
    DelimiterSends(env, s, k, Taken(st, s, i, k));
  }

  /** Statements on one line are sent one by one, in their order. */
  lemma {:induction false} StatementsAreSent(
      env: Env, s: seq<char>, i: nat, statements: seq<seq<char>>, st: Scan) returns (st': Scan)
    requires !env.preserveComments && Steady(env, st.mode) && st.mode.delimiter[0] != '\\'
    requires Outside(st) && !st.needSpace && st.text == [] && st.mark == 0
    requires InARow(env, st.mode.delimiter, s, i, statements)
    ensures ScanFrom(env, s, i, st) == Done(st')
    ensures st' == st.(sent := st.sent + AsStatements(statements), inServerComment := st'.inServerComment)
    decreases |statements|
  {
    hide Words, Starts, InHint, Steady;
    if statements == [] {
      st' := st;
      assert st.sent + [] == st.sent;
    } else {
      hide ScanFrom;
      var k := i + |statements[0]|;
      OneInARow(env, s, i, k, st);
      var sent := st.sent + [Statement(statements[0])];
      var st1 := st.(sent := sent, mark := 0, inServerComment := InHint(s, i, k, st.inServerComment));
      st' := StatementsAreSent(env, s, k + |st.mode.delimiter|, statements[1..], st1);
      Associate(st.sent, [Statement(statements[0])], AsStatements(statements[1..]));
    }
  }

  /** A block comment inside a statement becomes one space, unless white space follows it. */
  lemma CommentBecomesSpace(env: Env, c: Carry, s: seq<char>, n: nat, e: nat, k: nat, truncated: bool)
    requires ProperSpace(env) && Clear(c) && !env.preserveComments && c.mode.delimiter[0] != '\\'
    requires n <= |s| && Words(env, c.mode.delimiter, s, 0, n, c.text == []) && !InHint(s, 0, n, false)
    requires Remark(s, n, e) && !Starts(s, n, c.mode.delimiter)
    requires e < k <= |s| && Words(env, c.mode.delimiter, s, e, k, c.text == [] && n == 0)
    requires s[k..] == c.mode.delimiter
    ensures ScanLine(env, c, s, truncated) ==
      AfterStatement(env, c, c.text + s[..n] + (if env.isSpace(s[e]) then [] else [' ']) + s[e..k])
  {
    var st := Taken(Start(c), s, 0, n);
    WordsAreKept(env, s, 0, n, Start(c));
    assert s[0..n] == s[..n];
    hide InHint;
    RemarkIsLeft(env, s, n, e, st);
    var st1 := st.(needSpace := true, mark := |st.text|);
    assert Ordinary(env, c.mode.delimiter, s, e);
    DueSpace(env, s, e, st1);
    var space := if env.isSpace(s[e]) then [] else [' '];
    var st2 := Accept(st1, space).(needSpace := false);
    WordsAreKept(env, s, e, k, st2);
    var st3 := Taken(st2, s, e, k);
    hide Words, ProperSpace, Remark, Ordinary;
    DelimiterEnds(env, s, k, st3);
    hide ScanFrom, Starts;
    ScanLineResult(env, c, s, truncated, ScanFrom(env, s, k, st3));
    assert st3.text[..|st3.text|] == st3.text;
  }

  /** The body of a hint: nothing in it means anything to the splitter, nor makes a comment mark. */
  predicate HintBody(body: seq<char>) {
    && (forall k :: 0 <= k < |body| ==> body[k] !in ['\\', '\'', '"', '`', '#'])
    && Nowhere(body, 0, |body|, "--") && Nowhere(body + "*", 0, |body|, "/*")
  }

  /** Comments for the server are sent to it, as they were written, whether comments are removed or not. */
  lemma HintIsSent(env: Env, c: Carry, mariadb: bool, body: seq<char>, truncated: bool)
    requires ProperSpace(env) && Clear(c) && c.text == [] && HintBody(body)
    requires c.mode.delimiter[0] !in ['\\', '*']
    ensures var hint := (if mariadb then "/*M!" else "/*!") + body + "*/";
      Nowhere(hint + c.mode.delimiter, 0, |hint|, c.mode.delimiter) ==>
        ScanLine(env, c, hint + c.mode.delimiter, truncated) == AfterStatement(env, c, hint)
  {
    var hint := (if mariadb then "/*M!" else "/*!") + body + "*/";
    var s := hint + c.mode.delimiter;
    if Nowhere(s, 0, |hint|, c.mode.delimiter) {
      HintWords(env, c.mode.delimiter, mariadb, body);
      hide Words, Nowhere, AfterStatement;
      assert c.text + hint == hint;
      StatementIsSent(env, c, hint, truncated);
    }
  }

  lemma HintWords(env: Env, d: seq<char>, mariadb: bool, body: seq<char>)
    requires ProperSpace(env) && d != [] && d[0] != '*' && HintBody(body)
    requires var hint := (if mariadb then "/*M!" else "/*!") + body + "*/"; Nowhere(hint + d, 0, |hint|, d)
    ensures var hint := (if mariadb then "/*M!" else "/*!") + body + "*/"; Words(env, d, hint + d, 0, |hint|, true)
  {
    var open := if mariadb then "/*M!" else "/*!";
    var hint := open + body + "*/";
    forall j | 0 <= j < |hint|
      ensures Ordinary(env, d, hint + d, j)
    {
      HintOrdinary(env, d, open, body, j);
    }
    StartsAt(hint + d, 0);
  }

  lemma HintOrdinary(env: Env, d: seq<char>, open: seq<char>, body: seq<char>, j: nat)
    requires open in ["/*!", "/*M!"] && d != [] && d[0] != '*' && HintBody(body)
    requires j < |open + body + "*/"| && !Starts(open + body + "*/" + d, j, d)
    ensures Ordinary(env, d, open + body + "*/" + d, j)
  {
    var s := open + body + "*/" + d;
    HintAt(d, open, body, j);
    StartsAt(s, j);
    if j == 0 {
      HintAt(d, open, body, 1);
      HintAt(d, open, body, 2);
      HintAt(d, open, body, 3);
    } else if j < |open| {
      assert open[j] in ['*', 'M', '!'];
    } else if j < |open| + |body| {
      StartsAt(body, j - |open|);
      StartsAt(body + "*", j - |open|);
    }
    hide Starts;
  }

  /** The characters of a hint. */
  lemma HintAt(d: seq<char>, open: seq<char>, body: seq<char>, j: nat)
    requires j < |open + body + "*/"| && d != []
    ensures var s, n := open + body + "*/" + d, |open|;
      && (j < n ==> At(s, j) == open[j])
      && (n <= j < n + |body| ==> At(s, j) == body[j - n])
      && (n <= j + 1 < n + |body| ==> At(s, j + 1) == body[j + 1 - n])
      && At(s, n + |body|) == '*' && At(s, n + |body| + 1) == '/' && At(s, n + |body| + 2) == d[0]
  {
  }
}
