/**
  mysqldump --xml prints comments as character data sections. A section ends at the first
  "]]>", so one inside the text is split over two sections.
 */
module XmlText {
  import opened Shared
  import opened Wrappers

  const OPEN: string := "<![CDATA["
  const CLOSE: string := "]]>"
  const SPLIT: string := "]]]]><![CDATA[>"

  predicate Starts(s: string, prefix: string) {
    |prefix| <= |s| && forall i :: 0 <= i < |prefix| ==> s[i] == prefix[i]
  }

  /** The text starts with CLOSE. */
  predicate AtClose(s: string) {
    |s| >= 3 && s[0] == ']' && s[1] == ']' && s[2] == '>'
  }

  function CdataBody(str: string): string {
    if str == [] then []
    else if AtClose(str) then SPLIT + CdataBody(str[3..])
    else [str[0]] + CdataBody(str[1..])
  }

  /** The character at i of a text that is followed by a terminator. */
  function CharAt(str: string, i: nat): char {
    if i < |str| then str[i] else NUL
  }

  /** print_xml_cdata, which looks two characters ahead. */
  method PrintXmlCdata(str: string) returns (out: string)
    requires forall i :: 0 <= i < |str| ==> str[i] != NUL
    ensures out == OPEN + ("\n" + (CdataBody(str) + ("\n" + (CLOSE + "\n"))))
  {
    out := OPEN + "\n";
    var i := 0;
    while i < |str|
      invariant 0 <= i <= |str|
      invariant out + CdataBody(str[i..]) == OPEN + ("\n" + CdataBody(str))
    {
      var step, text := 1, [str[i]];
      if str[i] == ']' && CharAt(str, i + 1) == ']' && CharAt(str, i + 2) == '>' {
        step, text := 3, SPLIT;
      }
      CdataStep(str, i);
      out := out + text;
      i := i + step;
    }
    assert out == OPEN + ("\n" + CdataBody(str));
    Regroup(OPEN, "\n", CdataBody(str), "\n" + (CLOSE + "\n"));
    out := out + ("\n" + (CLOSE + "\n"));
  }

  lemma CdataStep(str: string, i: nat)
    requires i < |str| && forall k :: 0 <= k < |str| ==> str[k] != NUL
    ensures CdataBody(str[i..])
      == if str[i] == ']' && CharAt(str, i + 1) == ']' && CharAt(str, i + 2) == '>'
         then SPLIT + CdataBody(str[i + 3..])
         else [str[i]] + CdataBody(str[i + 1..])
  {
    var s := str[i..];
    assert s[1..] == str[i + 1..];
    if |s| >= 3 {
      assert s[3..] == str[i + 3..];
    }
  }

  /** The text of a section read from inside it, joined with the sections that follow at once, and the rest. */
  datatype Sections = Sections(text: string, rest: string)

  function ReadInside(s: string): Option<Sections>
    decreases |s|
  {
    if s == [] then None
    else if AtClose(s) then
      var rest := s[3..];
      if Starts(rest, OPEN) then ReadInside(rest[|OPEN|..]) else Some(Sections([], rest))
    else
      var r := ReadInside(s[1..]);
      if r.Some? then Some(Sections([s[0]] + r.value.text, r.value.rest)) else None
  }

  /** Read adjacent sections. */
  function ReadSections(s: string): Option<Sections> {
    if Starts(s, OPEN) then ReadInside(s[|OPEN|..]) else None
  }

  function Prepend(c: char, r: Option<Sections>): Option<Sections> {
    if r.Some? then Some(Sections([c] + r.value.text, r.value.rest)) else None
  }

  lemma ReadChar(c: char, tail: string)
    requires !AtClose([c] + tail)
    ensures ReadInside([c] + tail) == Prepend(c, ReadInside(tail))
  {
    assert ([c] + tail)[1..] == tail;
  }

  /** Closing and opening a section adds nothing to the text. */
  lemma ReadBreak(tail: string)
    ensures ReadInside(CLOSE + (OPEN + tail)) == ReadInside(tail)
  {
    var s := CLOSE + (OPEN + tail);
    assert s[3..] == OPEN + tail;
    assert (OPEN + tail)[|OPEN|..] == tail;
  }

  /** The split form of "]]>" reads as "]]>". */
  lemma ReadSplit(tail: string)
    ensures ReadInside(SPLIT + tail)
         == Prepend(']', Prepend(']', Prepend('>', ReadInside(tail))))
  {
    var after := [ '>' ] + tail;
    var middle := CLOSE + (OPEN + after);
    assert SPLIT + tail == "]" + ("]" + middle);
    ReadChar(']', "]" + middle);
    ReadChar(']', middle);
    ReadBreak(after);
    ReadChar('>', tail);
  }

  lemma HeadOfBody(str: string, tail: string)
    requires tail != []
    ensures (CdataBody(str) + tail)[0] == (str + tail)[0]
  {
  }

  /** A printed character never completes a "]]>" that the text does not have. */
  lemma NoFalseEnd(str: string, tail: string)
    requires str != [] && !AtClose(str) && tail != [] && tail[0] == '\n'
    ensures !AtClose([str[0]] + (CdataBody(str[1..]) + tail))
  {
    var t := str[1..];
    var x := CdataBody(t) + tail;
    HeadOfBody(t, tail);
    if t != [] && !AtClose(t) {
      HeadOfBody(t[1..], tail);
      assert x == [t[0]] + (CdataBody(t[1..]) + tail);
    }
  }

  lemma ReadSplitBody(body: string, tail: string)
    ensures ReadInside((SPLIT + body) + tail) == Prepend(']', Prepend(']', Prepend('>', ReadInside(body + tail))))
  {
    assert (SPLIT + body) + tail == SPLIT + (body + tail);
    ReadSplit(body + tail);
  }

  lemma ReadCharBody(c: char, body: string, tail: string)
    requires !AtClose([c] + (body + tail))
    ensures ReadInside(([c] + body) + tail) == Prepend(c, ReadInside(body + tail))
  {
    assert ([c] + body) + tail == [c] + (body + tail);
    ReadChar(c, body + tail);
  }

  lemma JoinClose(str: string, end: string)
    requires AtClose(str)
    ensures [']'] + ([']'] + (['>'] + (str[3..] + end))) == str + end
  {
  }

  lemma JoinFirst(str: string, end: string)
    requires str != []
    ensures [str[0]] + (str[1..] + end) == str + end
  {
  }

  /** The printed text reads as the text, whatever follows from a newline on. */
  lemma {:induction false} ReadBody(str: string, tail: string, end: Sections)
    requires tail != [] && tail[0] == '\n' && ReadInside(tail) == Some(end)
    ensures ReadInside(CdataBody(str) + tail) == Some(Sections(str + end.text, end.rest))
    decreases |str|
  {
    if str == [] {
      assert [] + tail == tail && [] + end.text == end.text;
    } else if AtClose(str) {
      ReadBody(str[3..], tail, end);
      ReadSplitBody(CdataBody(str[3..]), tail);
      JoinClose(str, end.text);
    } else {
      ReadBody(str[1..], tail, end);
      NoFalseEnd(str, tail);
      ReadCharBody(str[0], CdataBody(str[1..]), tail);
      JoinFirst(str, end.text);
    }
  }

  lemma ReadTail(more: string)
    ensures ReadInside("\n" + (CLOSE + ("\n" + more))) == Some(Sections("\n", "\n" + more))
  {
    var rest := "\n" + more;
    ReadChar('\n', CLOSE + rest);
    assert (CLOSE + rest)[3..] == rest && rest[0] != OPEN[0];
    assert ['\n'] + [] == "\n";
  }

  /** Reading the printed sections gives back the text between two newlines. */
  lemma CdataRoundTrip(str: string, more: string)
    ensures ReadSections(OPEN + ("\n" + (CdataBody(str) + ("\n" + (CLOSE + ("\n" + more))))))
         == Some(Sections("\n" + str + "\n", "\n" + more))
  {
    var tail := "\n" + (CLOSE + ("\n" + more));
    var inside := CdataBody(str) + tail;
    ReadTail(more);
    ReadBody(str, tail, Sections("\n", "\n" + more));
    ReadFirst(inside);
    assert ['\n'] + (str + "\n") == "\n" + str + "\n";
  }

  lemma ReadFirst(inside: string)
    ensures ReadSections(OPEN + (['\n'] + inside)) == Prepend('\n', ReadInside(inside))
  {
    assert (OPEN + (['\n'] + inside))[|OPEN|..] == ['\n'] + inside;
    ReadChar('\n', inside);
  }
}
